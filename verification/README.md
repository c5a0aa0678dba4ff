# Kernel state machines, allocators and two tools, verified in Dafny

This project models parts of the RT-Thread kernel that keep linked structures and redundant indexes consistent, and two
small tools of the same source tree, and proves what they are for. Objects whose functions rewrite their fields are
classes whose methods change those fields in place; every such method is tied, by its contract, to a function on a
snapshot of the state, and the properties are proved about that function. Algorithms that are expressions and recursion
are functions. One locked region of the kernel is one atomic step. Machine words have 32 bits, and the wrap-around of
sizes, ticks, time slices and the single-core scheduler's 16-bit lock counter is modelled. `dafny verify dfyconfig.toml`
checks everything.

## What is modelled, and what was found

**Mutexes with priority inheritance** (`MutexState`, `MutexProofs`, `MutexSteps`, `MutexOrder`, `MutexKernel`,
`MutexExactness`, `MutexDeadlock`, `MutexRuns`, `MutexFairness`, `Chains`). Threads and mutexes form a wait graph. The
invariant is a set of local equations: a mutex records the priority of its best waiter, and a thread runs at the best of
its own priority and what its mutexes lend it. Each operation restores them by editing one place and walking the chain of
owners. The walk terminates and restores the equations on every wait graph, even one with a cycle, and threads whose
priority it leaves alone keep their order of arrival. So over whole runs a waiting thread is not overtaken by one that
came later and is no more urgent (`Fairness.NoOvertaking`). On acyclic graphs the equations pin each priority down
exactly. Three results about the code as it is:

- The hand-over in a release does not raise the new owner to the mutex's ceiling. The new owner's equation holds if and
  only if its priority is already at least as urgent as the ceiling (`MutexKernel.Kernel.Release`, example in
  `MutexRuns.CeilingIgnored`). Runs go on up to the first hand-over past a ceiling.
- Nothing prevents deadlock. Blocking closes a cycle if and only if the owner already waits, through others, for the
  caller (`Deadlock.BlockingClosesCycle`); no other operation closes one (`MutexRuns.NextAcyclic`). Two threads and two
  mutexes are enough (`MutexRuns.DeadlockHappens`).
- The equations survive a deadlock. Exactness needs the graph to be acyclic, and holds again once a time-out has broken
  the cycle (`MutexRuns.Run`).

**Small-memory allocator** (`SmallMemBlocks`, `SmallMemAccounting`, `SmallMem`, `SmallMemRuns`). The headers in the heap
buffer, linked by offsets, describe a tiling of the region. The `prev` field of the end marker is not kept, and the
invariant exempts it. Rounding a request up wraps for the last seven sizes below 2^32: such a request is treated as a
request for nothing or for the minimum, and is covered if and only if the sum does not wrap (`SmallMem.RequestCovers`). A
reallocation to a size that wraps to zero frees the block. Over whole runs the maximum is the running maximum of the bytes
in use, counting both blocks of a move (`SmallMemRuns.RunningMaximum`).

**Slab allocator** (`PageRuns`, `PageKernel`, `SlabSizes`, `SlabZones`, `SlabState`, `SlabSteps`, `SlabEffects`,
`SlabPlaces`, `SlabAlignment`, `SlabKernel`, `SlabRuns`). Below, a list of free page runs kept in the free pages themselves; above, zones of equal
chunks, spare zones, large blocks and a table that leads from a pointer back to its zone. The page list depends only on
which pages are free, and `SlabPlaces` says which place every request gets and when it gets none. Results about the code
as it is:

- A comment promises that every allocation of a power-of-two size is aligned to that size. It is kept for sizes up to a
  page, whatever the heap has been through, and for no larger one (`SlabAlignment.AlignedExactly`): a large block is only
  page-aligned, and on a fresh heap the usage table lies in front of it (`SlabAlignment.LargeMisaligned`); with larger
  zones a chunk of 8192 bytes is misaligned too (`SlabAlignment.ChunkMisaligned`).
- The same comment says that a request for nothing returns a pointer; it returns none.
- The 32-bit round-up of a large request may wrap, and the request is then refused.

**Memory heap** (`Rings`, `MemHeapBlocks`, `MemHeapEffects`, `MemHeapKernel`, `MemHeapRuns`). Items form one ring in
address order and the free ones a second one, the one released last first. Results about the code as it is:

- A request for exactly as many bytes as are available is refused even when one free block has them, since the
  comparison is strict (`MemHeapKernel.MemHeap.Alloc`; on every fresh heap, `MemHeapKernel.AllFreeRefused`).
- A request of one of the last seven sizes below 2^32 wraps and is granted the minimum (`MemHeapKernel.Aligned`).
- A reallocation to a size that is rounded to one of the last two multiples of eight below 2^32 adds the minimum in 32
  bits, which wraps. If a free block is behind and the test holds for the wrapped sum, the block is cut inside its own
  header, and the items no longer follow each other (`MemHeapKernel.WrappedBreaks`, `MemHeapKernel.GrowingWraps`).
  `MemHeapKernel.MemHeap.Realloc` says exactly when, and keeps all it promises otherwise.
- A pool is not checked for room for its two headers: a fresh heap is right if and only if they fit
  (`MemHeapKernel.MemHeap.constructor`).

**Schedulers** (`ReadyTables`, `SmpState`, `SmpSteps`, `SmpEffects`, `SmpGate`, `SmpKernel`, `SmpRuns`, `UpState`,
`UpEffects`, `UpKernel`, `UpRuns`). Ready queues with their one- or two-level bitmaps, thread states, and the choice of the next thread, on one
core and on several. What holds a switch off on a CPU, interrupts and critical sections, loses no request for one
(`SmpGate.NoRequestLost`). Three results about the code as it is:

- Binding a READY thread to a CPU unlinks it and then inserts it while it is still marked READY, which does nothing. The
  invariant survives a binding if and only if the thread is not READY; otherwise the thread is in no queue
  (`SmpSteps.BoundValid`).
- The lock counter of the single-core scheduler has 16 bits and a sign, though a comment takes 65535 for the deepest nest:
  leaving one of `n` locks leads back to the level before if and only if `n` is at most 32768; deeper down it unlocks the
  scheduler at once (`UpState.DepthExact`).
- On one core a yield with nothing as urgent waiting is not consumed but remembered (`UpState.YieldRemembered`); on
  several cores any switch that finds a READY thread clears the mark.

**Timers** (`TimerRows`, `TimerState`, `TimerExpiry`, `TimerEffects`, `TimerKernel`). A skip list of any number of rows ordered by wrapping
ticks, and the expiry loop, in which the callbacks may make any legal calls on any timers while the clock goes on. A timer
ends active without being in the list if and only if its callback made a running periodic timer one-shot
(`TimerExpiry.AfterTurn`, an example in `TimerExpiry.ActiveUnlisted`): nothing will ever fire it, though it says it is
active. A timer that is stopped has no further turn unless something starts it again (`TimerEffects.StopIsFinal`). Once
callbacks do nothing more, the loop ends if and only if no timer that is due is periodic with a period of zero
(`TimerExpiry.LoopEnds`).

**Message queue** (`MessageState`, `MessageKernel`, `MessageRuns`, `MessageBodies`). Nodes leave and return to shared lists in two
separately locked halves of a call, so all interleavings of halves are considered. An urgent message keeps whatever
priority its node last had; the queue stays in descending order if and only if that is no less than the priority of the
first message (`MessageRuns.UrgentDescending`, an example in `MessageRuns.UrgentBreaks`). With priorities and no urgent
messages, messages of one priority are received in the order in which they were linked in, that is, in which the second
halves of their sends ran, in every interleaving (`MessageRuns.FifoByPriority`), and with the very bytes that the senders
gave (`MessageBodies.GivenByPriority`).

**ROMFS images** (`RomImage`, `RomExtents`, `RomWriter`). The recursive writer with absolute addresses, and a reader
written from the directory entry layout alone. Names are padded by their number of characters, not of bytes, so what a
reader touches is aligned if and only if the base is and each name's bytes exceed its characters by a multiple of four
(`RomWriter.ExtentsApart`); an accented letter breaks it (`RomWriter.AccentedNameMisaligns`).

**Worst-case stack** (`CallGraph`, `WorstCaseStack`). The memoised depth-first search over call graphs with cycles.

## Model

| member | source | states |
|---|---|---|
| `MutexKernel.Kernel.Enqueue` | rt-thread/src/ipc.c:241-285 | A suspended thread is linked in at one place: every waiter before it is at least as urgent, the one behind it, and in a sorted queue every one behind it, is strictly less so. Equal priorities keep their order of arrival; nothing else changes. |
| `InheritanceProofs.EnqueuedSorted` | rt-thread/src/ipc.c:241-285 | Such an insertion keeps a wait queue sorted by current priority and adds exactly one thread. |
| `InheritanceProofs.EnqueuedJoins` | rt-thread/src/ipc.c:241-285 | In a sorted queue that place is behind all that are at least as urgent and before all others. |
| `MutexKernel.Kernel.RefreshMutex` | rt-thread/src/ipc.c:827-843 | The mutex records the priority of its first waiter, or the least urgent value without waiters. |
| `MutexKernel.Kernel.BestPriority` | rt-thread/src/ipc.c:845-866 | The result is the most urgent of the thread's initial priority and what each mutex it has taken lends it: a bound for all of them, attained by one. |
| `MutexKernel.Kernel.Propagate` | rt-thread/src/ipc.c:877-917 | One round of the chain walk: with the equations broken at one thread only, they are afterwards broken at most at the owner it waits for, whose priority moved the same way; who owns and awaits what is unchanged. |
| `MutexKernel.Kernel.UpdatePriority` | rt-thread/src/ipc.c:868-920 | On any wait graph, cyclic or not, the walk ends, and with equations broken at one thread on entry they hold for all threads and mutexes on exit, in spite of its early exits; ownership and waiting stay the same, and in every wait queue the threads whose priority did not change keep their order. |
| `InheritanceProofs.RequeueRepairs` | rt-thread/src/ipc.c:877-917 | Re-sorting one waiter by its new priority puts all wait queues right again and leaves only the owner of that mutex possibly wrong. |
| `InheritanceProofs.WalkStep` | rt-thread/src/ipc.c:877-917 | After a requeue either every equation holds (and the walk may stop) or the owner's priority changes in the direction of the walk and is the only equation to be repaired. |
| `WaitOrder.RequeuedOrder` | rt-thread/src/ipc.c:877-917 | Re-sorting one waiter leaves the order of all others as it was. |
| `MutexKernel.Kernel.Take` | rt-thread/src/ipc.c:1324-1447 | Taking a free mutex, taking it again, the full hold counter, the refusal without waiting, and blocking with inheritance: which outcome occurs exactly when, and the whole new state of each. An owner is recorded with the counter at one more or at one, and runs at the ceiling if that is more urgent; a thread that waits is suspended, pending on the mutex, and stands behind all waiters at least as urgent and before all others, up to the places of threads whose priority propagation changed. |
| `MutexSteps.AcquiredIs` | rt-thread/src/ipc.c:1366-1381 | Taking a free mutex sets its owner, its counter and the taken list of that thread, and changes no other thread or mutex. |
| `MutexSteps.BlockedIs` | rt-thread/src/ipc.c:1404-1418 | Blocking suspends one thread, pending on the mutex and at its place in the queue; owner, counter and all other threads and mutexes are as they were. |
| `MutexKernel.Kernel.CheckPriority` | rt-thread/src/ipc.c:922-943 | After a mutex left the taken list the thread has its best remaining priority, although it is recomputed only when the mutex could have determined it. |
| `MutexSteps.UntakenKeeps` | rt-thread/src/ipc.c:922-943 | A mutex without a ceiling whose priority differs from the thread's cannot have determined it, so skipping the recomputation is right. |
| `MutexKernel.Kernel.Release` | rt-thread/src/ipc.c:1581-1708 | Refusal for a thread that is not the owner, nested release, release without waiters, and hand-over to the first and most urgent waiter, which leaves the queue, wakes up and owns the mutex once, while the mutex leaves the taken list of its old owner; all equations hold afterwards if and only if no hand-over went to a thread less urgent than the ceiling. |
| `MutexSteps.HandedOverRights` | rt-thread/src/ipc.c:1629-1679 | After a hand-over everything but the new owner's equation is right, and that one is right if its priority reaches the ceiling. |
| `MutexSteps.HandedOverIs` | rt-thread/src/ipc.c:1629-1679 | A hand-over changes the mutex, its old owner and its first waiter, each field as said, and nothing else. |
| `MutexSteps.FreedIs` | rt-thread/src/ipc.c:1690-1697 | A release without waiters leaves a mutex without owner, out of exactly the taken list it was in. |
| `MutexKernel.Kernel.Abandon` | rt-thread/src/ipc.c:1459-1516 | A waiter that times out, is interrupted or is dropped is awake and pending on nothing, and has left the queue; the owner falls back and the chain behind it follows, so that all equations hold and threads whose priority did not change keep their order. |
| `MutexSteps.UnqueuedOwner` | rt-thread/src/ipc.c:1103-1134 | When the leaving waiter was not as urgent as the owner runs, the owner's equation holds without a recomputation. |
| `MutexSteps.UnqueuedIs` | rt-thread/src/ipc.c:1103-1134 | Leaving changes one thread and the queue it was in, where the others keep their order, and nothing else. |
| `MutexKernel.Kernel.SetCeiling` | rt-thread/src/ipc.c:1149-1181 | A new ceiling is recorded, the owner and the chain behind it are brought up to date, and the old ceiling is returned; an invalid priority changes nothing. |
| `MutexSteps.CeilingIs` | rt-thread/src/ipc.c:1149-1181 | Recording a ceiling changes no owner, counter or queue, and no other mutex. |
| `Exactness.OwnershipSafe` | rt-thread/src/ipc.c:1350-1698 | A mutex is held if and only if it has an owner, is in exactly the owner's taken list once, has waiters only with an owner, and a thread waits in the queue of exactly the mutex it is pending on. |
| `Exactness.NoInversion` | rt-thread/src/ipc.c:868-943 | No thread is ever less urgent than one that waits for it directly or through others, even in a deadlock. |
| `Exactness.InheritanceExact` | rt-thread/src/ipc.c:827-943 | On an acyclic wait graph every thread runs at exactly the most urgent priority that it or any direct or indirect waiter brings in. |
| `Deadlock.BlockingClosesCycle` | rt-thread/src/ipc.c:1394-1429 | Waiting keeps the wait graph acyclic if and only if the owner does not already wait for the caller. |
| `Deadlock.HandedOverAcyclic` | rt-thread/src/ipc.c:1653-1679 | A hand-over closes no cycle. |
| `Deadlock.UnqueuedAcyclic` | rt-thread/src/ipc.c:1076-1138 | A waiter that leaves closes no cycle. |
| `Deadlock.FreedAcyclic` | rt-thread/src/ipc.c:1690-1697 | A release without waiters closes no cycle. |
| `Deadlock.CeilingWaiting` | rt-thread/src/ipc.c:1149-1181 | A new ceiling, with everything it propagates, leaves the wait graph as it is. |
| `Chains.WiderAcyclic` | rt-thread/src/ipc.c:868-920 | One more waiting edge closes a cycle if and only if its target already reaches its source. |
| `MutexRuns.Run` | rt-thread/src/ipc.c:1149-1708 | The history of any sequence of takes, releases, time-outs, new ceilings, sleeps and wake-ups by any threads: each state is what `Next` makes of the one before, all equations hold at every moment up to the first hand-over past a ceiling and fail exactly there, and whenever nobody waits for itself every thread runs at exactly its inherited priority. |
| `MutexRuns.NextAcyclic` | rt-thread/src/ipc.c:1149-1708 | Any call closes a cycle of waiting threads if and only if it makes a thread wait for a mutex whose owner already waits for it. |
| `MutexRuns.StaysAcyclic` | rt-thread/src/ipc.c:1149-1708 | A history that starts without a deadlock and has no such call has no deadlock at any moment. |
| `MutexRuns.CeilingIgnored` | rt-thread/src/ipc.c:1658-1677 | A run of four calls from a fresh start, a new ceiling, two takes and a release, whose hand-over leaves the new owner less urgent than the ceiling. |
| `MutexRuns.DeadlockHappens` | rt-thread/src/ipc.c:1394-1429 | Two threads and two mutexes, all right and without a cycle, from which a take closes one. |
| `Fairness.NextLeads` | rt-thread/src/ipc.c:241-1708 | While two priorities stay the same, no event puts a thread in front of a waiter that is at least as urgent and was not behind it, nor hands the mutex to that thread while the waiter still waits. |
| `Fairness.NoOvertaking` | rt-thread/src/ipc.c:241-1708 | Over any part of any history: while a thread waits for a mutex, another one that is no more urgent and was not in front of it stays behind it whenever it waits too, and does not get the mutex. So waiters of one unchanged priority get it in the order in which they blocked. |
| `SmallMem.SmallMem.constructor` | rt-thread/src/mem.c:200-236 | An initialised heap is one free block and the used end marker, with nothing in use. |
| `SmallMem.HeapInRegion` | rt-thread/src/mem.c:179-196 | A region inside the address space is refused if and only if it cannot hold the descriptor and two headers; otherwise the heap is aligned, lies inside, and wastes less than one alignment unit at its end. |
| `SmallMem.SmallMem.PlugHoles` | rt-thread/src/mem.c:119-157 | The header writes that join a free item with a free neighbour on either side describe the tiling with the blocks merged. |
| `SmallMem.JoinedLinked` | rt-thread/src/mem.c:119-157 | After the writes of one direction, next and prev links are mutually inverse again for the merged tiling, the end marker's prev exempt. |
| `SmallMem.CutLinked` | rt-thread/src/mem.c:323-340 | After the writes that cut a free item off another the links describe the split tiling. |
| `SmallMem.SmallMem.AdvanceLowest` | rt-thread/src/mem.c:367-371 | The low pointer moves on to the lowest free item or to the end marker. |
| `SmallMem.SmallMem.Search` | rt-thread/src/mem.c:299-305 | The search from the low pointer to its early end finds the lowest free block that is large enough, and fails only if there is none. |
| `SmallMem.LateBlocksTooSmall` | rt-thread/src/mem.c:299-301 | Past the point where the search stops no block could hold the request. |
| `SmallMem.SmallMem.Alloc` | rt-thread/src/mem.c:271-388 | Exact first fit: with n the least aligned size that covers the request and the minimum, it fails if and only if the request is for nothing, n exceeds the heap, or no free block holds n. It changes nothing then; otherwise it takes the lowest block that does, of which it hands out less than n plus a header and the least payload, and leaves the rest as a free block behind; the maximum follows the bytes in use. |
| `SmallMem.SmallMem.Free` | rt-thread/src/mem.c:497-539 | The block becomes free and merges with its free neighbours; the low pointer, the links and the count stay right. |
| `SmallMem.SmallMem.Resize` | rt-thread/src/mem.c:434-487 | Same size, shrink in place, or move: which one occurs exactly when, the exact new tiling of each, that a move copies the payload and no other byte, and that the maximum counts both blocks of a move. |
| `SmallMem.SmallMem.Realloc` | rt-thread/src/mem.c:403-488 | The cases around it: too large, zero, no old block, and a size whose rounding wraps to zero and so frees; the exact new tiling, the copied bytes and the maximum of each. |
| `SmallMem.MovedLive` | rt-thread/src/mem.c:479-487 | After a move the new payload is live and holds the request, the old one is not, and all others are as before. |
| `SmallMem.RequestCovers` | rt-thread/src/mem.c:285-290 | The rounded request is at least the request if and only if the rounding does not wrap. |
| `SmallMem.SmallMem.RequestSize` | rt-thread/src/mem.c:285-290 | Where rounding does not wrap, the size looked for is at least the request and less than one alignment unit more, or the minimum. |
| `SmallMem.OnlyLeast` | rt-thread/src/mem.c:285-290 | It is the least aligned size that covers the request and the minimum. |
| `SmallMemBlocks.GetsFirst` | rt-thread/src/mem.c:305-359 | The block handed out is the first that is large enough, whole or cut behind the requested bytes, and all other blocks are as they were. |
| `SmallMemBlocks.RoundingWraps` | rt-thread/src/mem.c:286-290 | Rounding up to the alignment in 32 bits covers the size exactly when it does not wrap, and gives zero when it does. |
| `SmallMemBlocks.AllocatedCanonical` | rt-thread/src/mem.c:305-359 | Allocation keeps the tiling exact with no two neighbours free, and the block is at least as large as the request. |
| `SmallMemBlocks.FreedCanonical` | rt-thread/src/mem.c:119-157 | Release keeps the tiling exact with no two neighbours free. |
| `SmallMemBlocks.ShrunkCanonical` | rt-thread/src/mem.c:449-477 | A shrink keeps the tiling exact with no two neighbours free, whatever follows the block. |
| `SmallMemAccounting.AllocatedLive` | rt-thread/src/mem.c:341-356 | Allocation makes exactly one more payload live and adds exactly its extent to the bytes in use. |
| `SmallMemAccounting.FreedLive` | rt-thread/src/mem.c:524-538 | Release takes exactly that payload and its extent away. |
| `SmallMemAccounting.ShrunkLive` | rt-thread/src/mem.c:449-477 | A shrink cuts exactly one live payload to the new size. |
| `SmallMemAccounting.UsedAndFree` | rt-thread/src/mem.c:341-356 | Conservation: used and free extents always add up to the region. |
| `SmallMemAccounting.LiveDisjoint` | rt-thread/src/mem.c:271-539 | Live payloads never overlap each other or a header. |
| `SmallMemAccounting.LiveInside` | rt-thread/src/mem.c:271-539 | A live payload is aligned, at least one alignment unit long, and inside the region. |
| `SmallMemAccounting.NothingLiveInitial` | rt-thread/src/mem.c:119-157 | A merged heap with nothing live is the single initial free block, with nothing in use. |
| `SmallMemRuns.Run` | rt-thread/src/mem.c:271-539 | The history of any sequence of allocations, releases and resizes by a client that passes only pointers it holds: each call has the result and the effect that `Next` gives it, at every moment the heap is an exact merged tiling, the pointers held are exactly the live payloads and the count is exact, and the maximum bounds all that was ever in use and is attained. |
| `SmallMemRuns.NextHolds` | rt-thread/src/mem.c:271-539 | Whatever the call and its result, the pointers that the client then holds are exactly the live payloads again. |
| `SmallMemRuns.RunningMaximum` | rt-thread/src/mem.c:341-356 | After any part of such a history the maximum is at least all that was in use before, during and after each call, and is that of one of them or the first maximum. |
| `SmallMemRuns.ReleaseAll` | rt-thread/src/mem.c:497-539 | Releasing everything in any order restores the heap as it was initialised, with nothing in use. |
| `PageRuns.CanonicalUnique` | rt-thread/src/slab.c:257-299 | Two ordered page lists without touching runs and with the same free pages are the same list. |
| `PageRuns.CarvedCanonical` | rt-thread/src/slab.c:216-247 | Taking pages from a run leaves the list ordered and merged and takes exactly those pages. |
| `PageRuns.MergedCanonical` | rt-thread/src/slab.c:257-299 | Giving pages back merges them with the runs they touch on one or both sides; the list stays ordered and merged and gains exactly those pages. |
| `PageRuns.FreeUndoesAlloc` | rt-thread/src/slab.c:216-299 | Giving pages back where they were taken restores the very same list. |
| `PageRuns.CarvedPartition` | rt-thread/src/slab.c:216-247 | Free pages and handed-out blocks remain a partition of the region when a block is handed out. |
| `PageRuns.MergedPartition` | rt-thread/src/slab.c:257-299 | And when a block comes back. |
| `PageKernel.PageHeap.constructor` | rt-thread/src/slab.c:304-312 | A fresh page list is the whole region as one run. |
| `PageKernel.PageHeap.PageAlloc` | rt-thread/src/slab.c:216-247 | The first run that is long enough gives its first pages; without one, and for no pages, nothing changes. |
| `PageKernel.PageHeap.PageFree` | rt-thread/src/slab.c:257-299 | The block returns to its place in the list, merged with what it touches, and the headers in the pages say so. |
| `PageKernel.PageHeap.GiveBack` | rt-thread/src/slab.c:257-299 | The same for any pages that are not free, whether or not they were handed out as one block. |
| `PageKernel.Spliced` | rt-thread/src/slab.c:216-299 | Writing one link and one header replaces a stretch of the list by at most one run. |
| `SlabSizes.ZoneIndexChunk` | rt-thread/src/slab.c:411-469 | In every branch the rounded size is the chunk size of the index, is large enough, wastes less than eight bytes or an eighth, and the class below would be too small. |
| `SlabSizes.SameZoneSameSize` | rt-thread/src/slab.c:411-469 | Two requests share an index if and only if they are rounded to the same size. |
| `SlabSizes.SmallestClass` | rt-thread/src/slab.c:411-469 | Every request gets the smallest class that holds it. |
| `SlabZones.TakeRight` | rt-thread/src/slab.c:545-572 | A zone hands out untouched chunks first and then freed ones; exactly one chunk becomes live, which was not, and the counters stay right. |
| `SlabZones.GiveRight` | rt-thread/src/slab.c:786-799 | A chunk that comes back stops being live, and nothing else changes. |
| `SlabZones.LiveCount` | rt-thread/src/slab.c:545-572 | The live chunks of a zone number exactly its chunks less its free count. |
| `SlabZones.ChunksApart` | rt-thread/src/slab.c:635-643 | Chunks lie in their zone's pages and do not overlap. |
| `SlabZones.PowersAligned` | rt-thread/src/slab.c:624-633 | A chunk of a power-of-two size lies at a multiple of it, counted from the start of the heap, if and only if its zone does. |
| `SlabAlignment.AlignedExactly` | rt-thread/src/slab.c:112-113 | For every power of two below 2^32: all allocations of this size, in any heap at any page address and in any state, are aligned to it if and only if it is at most a page. |
| `SlabAlignment.UpToAPage` | rt-thread/src/slab.c:624-643 | Whatever place a power-of-two request of at most a page gets, chunk or new zone, its address is aligned to the size. |
| `SlabAlignment.LargeMisaligned` | rt-thread/src/slab.c:504-528 | For every larger power of two, a fresh heap with room for it that grants it at an address that is no multiple of it. |
| `SlabAlignment.ChunkMisaligned` | rt-thread/src/slab.c:361-375 | A fresh heap with 64 KiB zones, on which a chunk of 8192 bytes is misaligned. |
| `SlabState.LiveApart` | rt-thread/src/slab.c:490-655 | What different live pointers stand for never overlaps. |
| `SlabState.Located` | rt-thread/src/slab.c:760-784 | The usage table leads from every live pointer back to its zone or its large block. |
| `SlabSteps.TakenValid` | rt-thread/src/slab.c:543-579 | Taking a chunk keeps the whole heap right, including that each list holds exactly the zones with chunks, makes one pointer live, and adds its size to the bytes in use. |
| `SlabEffects.UntouchedFirst` | rt-thread/src/slab.c:548-574 | While a zone has a chunk that was never handed out, such a chunk is taken, and no freed one. |
| `SlabEffects.LastGivenFirst` | rt-thread/src/slab.c:548-574 | After that the chunk given back last is the first to be taken, which restores the zone. |
| `SlabSteps.GivenValid` | rt-thread/src/slab.c:786-800 | And giving one back does the reverse. |
| `SlabSteps.OpenedValid` | rt-thread/src/slab.c:592-652 | A spare zone becomes a zone of an index with its first chunk handed out. |
| `SlabEffects.NewZoneFull` | rt-thread/src/slab.c:619-644 | A new zone has as many chunks as fit behind its header: not one more would. They begin at the first place with their alignment. |
| `SlabEffects.ChunksAligned` | rt-thread/src/slab.c:619-644 | Every chunk of every zone is aligned to eight bytes. |
| `SlabSteps.ClosedValid` | rt-thread/src/slab.c:808-828 | A zone without live chunks becomes spare; no pointer and no byte count changes. |
| `SlabSteps.ReleasedValid` | rt-thread/src/slab.c:831-851 | A spare zone goes back to the page list; no pointer and no byte count changes. |
| `SlabSteps.LargeTakenValid` | rt-thread/src/slab.c:506-528 | A large request makes its pages one live block. |
| `SlabSteps.LargeGivenValid` | rt-thread/src/slab.c:760-779 | And its release does the reverse. |
| `SlabPlaces.RefusedExactly` | rt-thread/src/slab.c:497-612 | There is no place for a request if and only if it is zero; or large, and its rounding wraps or no page run is long enough; or small, with no chunk left in zones of its index, no spare zone, and no run for a new one. |
| `SlabPlaces.PagesInRegion` | rt-thread/src/slab.c:330-347 | A region inside the address space is refused if and only if no whole page fits behind the descriptor; otherwise its pages lie inside, and less than a page is left behind them. |
| `SlabKernel.SlabHeap.constructor` | rt-thread/src/slab.c:349-383 | A fresh heap of the pages that `SlabPlaces.RegionPages` cuts out of a region: the table in the first pages, all others one free run, the zone size of the region, nothing live and nothing in use. |
| `SlabKernel.SlabHeap.ZoneSize` | rt-thread/src/slab.c:361-364 | The zone size is a power of two between 32 and 128 KiB, as the size of the region decides. |
| `SlabKernel.SlabHeap.Alloc` | rt-thread/src/slab.c:490-655 | Which place a request gets, and that it gets none exactly when it is refused; a refusal changes nothing, otherwise exactly one pointer becomes live, it holds the request, the bytes in use and their maximum follow, and a power of two up to a page is aligned. |
| `SlabKernel.SlabHeap.Free` | rt-thread/src/slab.c:738-853 | A null pointer changes nothing; otherwise exactly this pointer stops being live and its extent leaves the bytes in use; at most two spare zones remain. |
| `SlabKernel.SlabHeap.FreeLive` | rt-thread/src/slab.c:760-853 | The usage table decides between a large block and a chunk, and either way exactly the right pointer is given back. |
| `SlabRuns.Run` | rt-thread/src/slab.c:490-853 | The history of any sequence of allocations and releases by a client that passes only pointers it holds: each call has the result and the effect that `Next` gives it, and at every moment the heap is right, the pointers held are exactly the live ones and the count is what they stand for. |
| `SlabRuns.ReleaseAll` | rt-thread/src/slab.c:738-853 | Releasing everything in any order leaves nothing in use, no large block, all chunks of every zone free, and at most two spare zones. |
| `SlabRuns.NothingLive` | rt-thread/src/slab.c:738-853 | Without a live pointer nothing is in use and every zone is all free. |
| `Rings.RingInserted` | rt-thread/src/memheap.c:276-280 | Linking a node into a circular list in both directions. |
| `Rings.RingDropped` | rt-thread/src/memheap.c:46-54 | Unlinking a node from a circular list in both directions. |
| `MemHeapKernel.MemHeap.constructor` | rt-thread/src/memheap.c:79-153 | Any pool size: one free block and the used tail, with the counts in a word; the heap is right if and only if two headers fit. |
| `MemHeapKernel.Aligned` | rt-thread/src/memheap.c:197-199 | The request that is served is aligned and at least the minimum, and covers the request if and only if rounding does not wrap. |
| `MemHeapKernel.MemHeap.Search` | rt-thread/src/memheap.c:220-232 | The search finds the first block on the free ring that is large enough, or that there is none. |
| `MemHeapKernel.MemHeap.Alloc` | rt-thread/src/memheap.c:187-347 | It fails if and only if the request is not below all available bytes or no free block holds it, and changes nothing then; otherwise the first that fits on the free ring is granted, cut exactly when the rest can be a block, all other blocks in use are as before, and the maximum follows. |
| `MemHeapKernel.AllFreeRefused` | rt-thread/src/memheap.c:204-204 | On every fresh heap the request for all of its free bytes is refused, though its one free block holds them. |
| `MemHeapKernel.MemHeap.Free` | rt-thread/src/memheap.c:594-719 | A null pointer changes nothing; otherwise exactly this block stops being in use, merged with its free neighbours. |
| `MemHeapKernel.MemHeap.FreeBlock` | rt-thread/src/memheap.c:642-719 | The block is merged with a free neighbour on either side, on both rings, and the available bytes are again the free payloads. |
| `MemHeapKernel.MemHeap.Grow` | rt-thread/src/memheap.c:431-483 | A block grows into the free one behind it, of which the rest becomes a new free block. |
| `MemHeapKernel.MemHeap.Shrink` | rt-thread/src/memheap.c:519-575 | A block gives its end back, merged with a free block behind it. |
| `MemHeapKernel.MemHeap.Realloc` | rt-thread/src/memheap.c:362-585 | Zero frees; it fails if and only if the block cannot stay and there is no room elsewhere, and changes nothing then; it stays exactly when it is no larger or the block behind leaves more than the minimum; the new blocks in either case, all others as before, and the maximum with both blocks of a move. It wraps in the growing test exactly when `WrapsBehind` holds, and all this holds otherwise. |
| `MemHeapKernel.MemHeap.Refit` | rt-thread/src/memheap.c:385-585 | The same for a block in use and a size that is not zero. |
| `MemHeapKernel.RoomBehind` | rt-thread/src/memheap.c:391-431 | What the comparisons in words come to: stay, grow, shrink, move or wrap. |
| `MemHeapKernel.WrappedCut` | rt-thread/src/memheap.c:431-451 | After a growing test that wrapped, the cut lies inside the header of the block that was to grow. |
| `MemHeapKernel.WrappedBreaks` | rt-thread/src/memheap.c:431-469 | After a growing test that wrapped, the new item overlaps the header of the block that was to grow, which then reads as large as the request. |
| `MemHeapKernel.GrowingWraps` | rt-thread/src/memheap.c:431-431 | A heap with one small block, on which a reallocation to the top of a word wraps. |
| `MemHeapBlocks.AllocatedSound` | rt-thread/src/memheap.c:235-312 | Allocation keeps the tiling and the two rings' agreement, and the free bytes fall by what is taken, with a header if the block is cut. |
| `MemHeapEffects.AllocatedIs` | rt-thread/src/memheap.c:235-312 | A block is cut behind the granted bytes exactly when the rest can hold an item and the least number of bytes, and the rest is then first on the free ring; no more than that is ever granted too much. |
| `MemHeapEffects.GrantedBytes` | rt-thread/src/memheap.c:235-312 | A granted payload exceeds the request by less than an item header and the least number of bytes. |
| `MemHeapEffects.NoneFits` | rt-thread/src/memheap.c:203-233 | The walk along the ring finds nothing exactly when no free block has the bytes. |
| `MemHeapEffects.FirstServed` | rt-thread/src/memheap.c:203-233 | The block served has the bytes, and none before it on the ring does. |
| `MemHeapBlocks.FreedSound` | rt-thread/src/memheap.c:645-705 | Release keeps them, no two free neighbours remain, and the free bytes rise by the payload and each header that disappears. |
| `MemHeapEffects.FreedIs` | rt-thread/src/memheap.c:645-712 | Which items disappear when a block is given back between free or used neighbours, and where on the free ring what it became is. |
| `MemHeapBlocks.ShrunkSound` | rt-thread/src/memheap.c:519-575 | So does a shrink. |
| `MemHeapBlocks.GrownSound` | rt-thread/src/memheap.c:431-483 | So does growth in place. |
| `MemHeapEffects.StaysExactly` | rt-thread/src/memheap.c:412-431 | Where the test does not wrap, a block keeps its place if and only if it is no larger than it was or the free block behind leaves more than the least number of bytes. |
| `MemHeapEffects.ResizedIs` | rt-thread/src/memheap.c:412-575 | In place a block takes in the one behind and is cut anew, or keeps a small end, or gives its end back, merged with a free block behind; the new free block is first on the ring. |
| `MemHeapBlocks.FreedHolds` | rt-thread/src/memheap.c:594-719 | A release changes no other block in use. |
| `MemHeapBlocks.HoldsApart` | rt-thread/src/memheap.c:187-347 | Blocks in use do not overlap. |
| `MemHeapRuns.Run` | rt-thread/src/memheap.c:187-719 | The history of any sequence of allocations, releases and reallocations by a client that passes only pointers it holds, up to one whose growing test wraps: each call has the result and the effect that `Next` gives it, and at every moment the heap is right, the pointers held are exactly those of the blocks in use and the counts agree. |
| `MemHeapRuns.ReleaseAll` | rt-thread/src/memheap.c:594-719 | Releasing everything in any order gives back the fresh heap: one free block and all its bytes available. |
| `MemHeapRuns.NothingInUse` | rt-thread/src/memheap.c:594-719 | A merged heap with nothing in use is one free block. |
| `ReadyTables.LookedUp` | rt-thread/src/scheduler_mp.c:167-201 | The two-level lookup finds the least priority whose queue is not empty. |
| `ReadyTables.Marked` | rt-thread/src/scheduler_mp.c:286-326 | Setting the bits of a priority keeps the bitmap equal to the non-empty queues, with one level or two. |
| `ReadyTables.Unmarked` | rt-thread/src/scheduler_mp.c:354-384 | So does clearing them, and the group bit with the last one of its octet. |
| `ReadyTables.ReadyTable.Highest` | rt-thread/src/scheduler_mp.c:167-211 | The lookup gives the least priority at which something is queued, or says that nothing is. |
| `ReadyTables.ReadyTable.Link` | rt-thread/src/scheduler_mp.c:286-326 | A thread joins the back or the front of its queue, and the bitmap still agrees. |
| `ReadyTables.ReadyTable.Unlink` | rt-thread/src/scheduler_mp.c:351-384 | A thread leaves its queue, and the bitmap still agrees. |
| `SmpState.CurrentOnce` | rt-thread/src/scheduler_mp.c:561-649 | No thread is current on two CPUs. |
| `SmpState.QueuedExactly` | rt-thread/src/scheduler_mp.c:259-338 | A thread is in a queue if and only if it is READY with that binding and priority, and then once. |
| `SmpState.InsertedValid` | rt-thread/src/scheduler_mp.c:259-338 | Inserting any thread, wherever it is, keeps all of this. |
| `SmpSteps.ReadiedOnCpu` | rt-thread/src/scheduler_mp.c:265-281 | A thread made ready while still on its CPU runs on, in no queue. |
| `SmpEffects.WokenQueued` | rt-thread/src/scheduler_comm.c:103-145 | A suspended thread that is on no CPU becomes READY and is in the queue of its binding and priority, last when its yield mark is set and else first; all other threads, queues and CPUs are as they were. |
| `SmpEffects.WokenOnCpu` | rt-thread/src/scheduler_mp.c:265-281 | On its CPU it is RUNNING again, and nothing else changes. |
| `SmpEffects.StoppedOnly` | rt-thread/src/thread.c:883-955 | A running thread that suspends itself changes its state and nothing else. |
| `SmpEffects.StartedQueued` | rt-thread/src/thread.c:393-411 | A thread that starts is READY, without marks, and first in the queue of its binding and priority. |
| `SmpSteps.SwitchedValid` | rt-thread/src/scheduler_mp.c:561-649 | A switch on any CPU keeps the invariant of all CPUs, queues and threads. |
| `SmpSteps.SwitchedUrgent` | rt-thread/src/scheduler_mp.c:561-649 | After a switch nothing in the CPU's own or the global queues is more urgent than what it runs; only a stopped thread with nothing to replace it stays. |
| `SmpSteps.SwitchedPlaces` | rt-thread/src/scheduler_mp.c:561-649 | A switch takes the CPU from one thread at most and gives it to one that had none; all others stay where they are. |
| `SmpEffects.PreemptedFirst` | rt-thread/src/scheduler_mp.c:325-332 | A thread that loses its CPU to a more urgent one before its time is up goes to the front of its queue. |
| `SmpEffects.ChosenIs` | rt-thread/src/scheduler_mp.c:218-252 | The queue that serves a CPU is the best of its own unless a global one holds something strictly more urgent. |
| `SmpEffects.SwitchedStays` | rt-thread/src/scheduler_mp.c:561-649 | The running thread keeps its CPU exactly when nothing is READY or it is more urgent, or as urgent without its yield mark, and may run there; it loses only that mark. |
| `SmpEffects.SwitchedTo` | rt-thread/src/scheduler_mp.c:561-649 | Otherwise the first thread of the chosen queue runs, the old one is back in its own queue, last after a yield and else first, or in none when it had stopped, and every other thread, queue and CPU is as it was. |
| `SmpEffects.CpuStartedTo` | rt-thread/src/scheduler_mp.c:440-478 | The first thread of a CPU is the first of the queue that serves it, and nothing else changes. |
| `SmpSteps.RoundRobin` | rt-thread/src/scheduler_mp.c:561-649 | Threads of one priority that keep yielding are all served once before the first runs again. |
| `SmpSteps.BoundValid` | rt-thread/src/scheduler_mp.c:1207-1236 | Binding keeps the invariant if and only if the thread is not READY; a READY one ends in no queue. |
| `SmpEffects.BoundOnly` | rt-thread/src/scheduler_mp.c:1207-1236 | A binding changes nothing but itself, and takes a READY thread out of its queue. |
| `SmpSteps.ReprioritizedValid` | rt-thread/src/scheduler_comm.c:175-217 | A priority change keeps the invariant, moving a READY thread to its new queue. |
| `SmpEffects.ReprioritizedQueued` | rt-thread/src/scheduler_comm.c:175-217 | A READY thread leaves its queue and is first in that of its new priority, with its yield mark dropped; any other thread only has the new number. |
| `SmpSteps.DetachedValid` | rt-thread/src/thread.c:452-468 | Closing a thread keeps the invariant and takes it out of its queue. |
| `SmpEffects.DetachedOnly` | rt-thread/src/thread.c:452-468 | A thread that is closed leaves the queue it was in; nothing else changes. |
| `SmpKernel.Scheduler.HighestPriorityThread` | rt-thread/src/scheduler_mp.c:218-252 | The global queues win only when strictly more urgent than the CPU's own; both may be empty. |
| `SmpKernel.Scheduler.Insert` | rt-thread/src/scheduler_mp.c:259-338 | Three cases: already READY, still on a CPU, or queued at the end its yield mark says. |
| `SmpKernel.Scheduler.PrepareContextSwitch` | rt-thread/src/scheduler_mp.c:561-649 | What becomes of the running thread, of its yield mark and of the thread that is chosen. |
| `SmpKernel.Scheduler.constructor` | rt-thread/src/scheduler_mp.c:390-433 | Initialised threads and CPUs that run none make a fresh scheduler. |
| `SmpKernel.Scheduler.Schedule` | rt-thread/src/scheduler_mp.c:798-876 | In an interrupt or a critical section only a flag is left; otherwise the flags are cleared and the CPU passes to the chosen thread. |
| `SmpKernel.Scheduler.EnterCritical` | rt-thread/src/scheduler_mp.c:1099-1126 | The thread of the CPU is locked once more; without a thread nothing happens. |
| `SmpKernel.Scheduler.ExitCritical` | rt-thread/src/scheduler_mp.c:1132-1174 | Leaving the last section makes up for a switch that it held off, or hands the request on to the interrupt. |
| `SmpKernel.Scheduler.UnlockResched` | rt-thread/src/scheduler_mp.c:712-791 | The same when the scheduler's own lock is left, except that a switch leaves the interrupt's flag as it is. |
| `SmpKernel.Scheduler.InterruptEnter` | rt-thread/src/irq.c:80-86 | An interrupt is counted on its CPU. |
| `SmpKernel.Scheduler.InterruptLeave` | rt-thread/src/scheduler_mp.c:884-958 | At the end of the last interrupt a switch asked for in it takes place, unless a critical section holds it off further. |
| `SmpGate.NoRequestLost` | rt-thread/src/scheduler_mp.c:712-1174 | After any sequence of requests of both kinds, critical sections and interrupts on a CPU its flags say exactly whether a request is pending, and none is while nothing holds a switch off. |
| `SmpGate.StepCounts` | rt-thread/src/scheduler_mp.c:712-1174 | Each of the two counters goes up and down by one with its own events alone, and no switch happens while either is above zero. |
| `SmpKernel.Scheduler.Start` | rt-thread/src/scheduler_mp.c:440-478 | The first thread of a CPU. |
| `SmpKernel.Scheduler.TickIncrease` | rt-thread/src/scheduler_comm.c:147-170 | The time slice counts down in 32 bits; at zero it is renewed and the thread yields. |
| `Common.SliceLasts` | rt-thread/src/scheduler_comm.c:147-170 | A time slice of n ticks is used up by its n-th tick and by none before; one of no ticks lasts 2^32. |
| `SmpKernel.Scheduler.MakeReady` | rt-thread/src/scheduler_comm.c:103-145 | Only a suspended thread whose timer could still be stopped becomes ready, as `SmpEffects.WokenQueued` and `SmpEffects.WokenOnCpu` say; else nothing changes and the call fails. |
| `SmpKernel.Scheduler.Suspend` | rt-thread/src/thread.c:883-955 | Only a running thread can suspend itself, and it stays on its CPU until the next switch. |
| `SmpKernel.Scheduler.ChangePriority` | rt-thread/src/scheduler_comm.c:175-217 | A READY thread is requeued, with its flags dropped; any other just gets the priority. |
| `SmpKernel.Scheduler.Bind` | rt-thread/src/scheduler_mp.c:1207-1236 | The binding, including the insertion that does nothing for a READY thread. |
| `SmpKernel.Scheduler.Startup` | rt-thread/src/thread.c:393-411 | An initialised thread becomes ready. |
| `SmpKernel.Scheduler.Detach` | rt-thread/src/thread.c:452-468 | A thread that is not closed leaves its queue, unless it was never started, and is closed. |
| `SmpRuns.Reachable` | rt-thread/src/scheduler_mp.c:218-649 | In every state reachable by any steps on any CPUs: a thread is on at most one CPU, a thread on a CPU is in no queue, and READY threads are in exactly their queue, once. |
| `SmpRuns.Execute` | rt-thread/src/scheduler_mp.c:218-649 | The in-place operations take exactly these steps. |
| `UpState.QueuedExactly` | rt-thread/src/scheduler_up.c:370-452 | A thread is in queue p if and only if it is READY with priority p, and then once. |
| `UpState.SwitchedUrgent` | rt-thread/src/scheduler_up.c:201-324 | After a switch the current thread is RUNNING, unless it had stopped and nothing was READY, and no READY thread is more urgent. |
| `UpState.RoundRobin` | rt-thread/src/scheduler_up.c:201-324 | Repeated yields rotate threads of equal priority cyclically. |
| `UpState.PreemptedFirst` | rt-thread/src/scheduler_up.c:386-402 | A thread that loses the processor to a more urgent one before its time is up goes to the front of its queue. |
| `UpEffects.SwitchedStays` | rt-thread/src/scheduler_up.c:222-252 | Nothing changes when nothing is READY or the running thread is more urgent, or as urgent without its yield mark. |
| `UpEffects.SwitchedTo` | rt-thread/src/scheduler_up.c:222-324 | Otherwise the first thread of the best queue runs, the old one is back in its own queue, last after a yield and else first, or in none when it had stopped, and every other thread and queue is as it was. |
| `UpEffects.FirstRunsTo` | rt-thread/src/scheduler_up.c:171-188 | The first thread to run is the first of the best queue, and nothing else changes. |
| `UpState.YieldRemembered` | rt-thread/src/scheduler_up.c:222-252 | A yield with nothing as urgent waiting changes nothing but the mark, which stays. |
| `UpState.FirstRunsValid` | rt-thread/src/scheduler_up.c:171-188 | The first switch leaves the most urgent READY thread RUNNING, out of its queue. |
| `UpState.ReadiedValid` | rt-thread/src/scheduler_up.c:370-387 | A thread made ready before it has given up the processor just runs on. |
| `UpEffects.WokenQueued` | rt-thread/src/scheduler_comm.c:103-145 | A suspended thread that is not the current one becomes READY and is in the queue of its priority, last when its yield mark is set and else first; nothing else changes. |
| `UpEffects.StoppedOnly` | rt-thread/src/thread.c:883-955 | A running thread that suspends itself changes its state and nothing else. |
| `UpEffects.StartedQueued` | rt-thread/src/thread.c:393-411 | A thread that starts is READY, without marks, and first in the queue of its priority. |
| `UpState.ReprioritizedValid` | rt-thread/src/scheduler_comm.c:175-217 | A priority change keeps the invariant. |
| `UpEffects.ReprioritizedQueued` | rt-thread/src/scheduler_comm.c:175-217 | A READY thread leaves its queue and is first in that of its new priority, with its yield mark dropped; any other thread only has the new number. |
| `UpEffects.DetachedOnly` | rt-thread/src/thread.c:452-468 | A thread that is closed leaves the queue it was in; nothing else changes. |
| `UpState.DepthExact` | rt-thread/src/scheduler_up.c:498-549 | After up to 65535 nested locks the scheduler is locked; leaving one leads back to the level before if and only if there were at most 32768, and else unlocks it at once. |
| `UpKernel.Scheduler.constructor` | rt-thread/src/scheduler_up.c:145-165 | Initialised threads and empty queues make a fresh scheduler. |
| `UpKernel.Scheduler.Insert` | rt-thread/src/scheduler_up.c:370-413 | The current thread runs on; any other is queued at the end its yield mark says. |
| `UpKernel.Scheduler.Start` | rt-thread/src/scheduler_up.c:171-188 | The first thread in line leaves its queue and runs. |
| `UpKernel.Scheduler.Schedule` | rt-thread/src/scheduler_up.c:201-324 | Nothing happens while the scheduler is locked; otherwise the switch. |
| `UpKernel.Scheduler.EnterCritical` | rt-thread/src/scheduler_up.c:498-516 | The counter goes up by one in 16 bits, and the new level is returned. |
| `UpKernel.Scheduler.ExitCritical` | rt-thread/src/scheduler_up.c:523-549 | The counter goes down by one in 16 bits and never stays below zero; when it comes to zero the switch that was held off takes place. |
| `UpKernel.Scheduler.TickIncrease` | rt-thread/src/scheduler_comm.c:147-170 | The time slice counts down in 32 bits; at zero it is renewed and the thread yields. |
| `UpKernel.Scheduler.ChangePriority` | rt-thread/src/scheduler_comm.c:175-217 | A READY thread is requeued, with its flags dropped; any other just gets the priority. |
| `UpRuns.Reachable` | rt-thread/src/scheduler_up.c:145-452 | From before the first switch on, READY threads are in exactly their queue, once, no other thread is queued, and only the current thread runs. |
| `UpRuns.SwitchAfterRun` | rt-thread/src/scheduler_up.c:201-324 | In every reachable state with an idle thread awake, a switch leaves a RUNNING thread on the processor and no READY thread more urgent than it. |
| `UpRuns.Execute` | rt-thread/src/scheduler_up.c:201-452 | The in-place operations take exactly these steps. |
| `TimerRows.WrapCompare` | rt-thread/src/timer.c:436-443 | Within half the tick range the wrapped difference tells exactly which of two times is later, and whether they are equal. |
| `TimerRows.WrapTurns` | rt-thread/src/timer.c:436-443 | For any two times less than a word apart the comparison is right if and only if the first is less than 2^31 - 1 ticks later or at most 2^31 + 1 ticks earlier. |
| `TimerRows.PlacedStable` | rt-thread/src/timer.c:431-443 | A timer is placed behind every timer due at the same time or earlier, and the others keep their order. |
| `TimerRows.PlacedThins` | rt-thread/src/timer.c:456-468 | Placing a timer in two neighbouring rows keeps the upper one within the lower. |
| `TimerRows.RemovedRight` | rt-thread/src/timer.c:180-188 | Removal from all rows keeps the bottom row sorted and every row within the one below. |
| `TimerRows.PlacedRight` | rt-thread/src/timer.c:420-468 | Insertion keeps this whatever the number of rows the timer enters. |
| `TimerState.ActValid` | rt-thread/src/timer.c:398-625 | Starting, stopping, new times, mode changes and the clock keep the list right and in one window. |
| `TimerEffects.StoppedIs` | rt-thread/src/timer.c:548-575 | A stop changes one timer, takes it out of every row and off the temporary list, and leaves the others in order. |
| `TimerEffects.RetimedIs` | rt-thread/src/timer.c:605-613 | A new time does the same and records the time. |
| `TimerEffects.StartedIs` | rt-thread/src/timer.c:398-473 | A start changes one timer, due one period from now; in the lowest rows it stands behind all due no later and before all due later, and it has left the rows further up. |
| `TimerEffects.ClimbCounts` | rt-thread/src/timer.c:456-468 | It enters one row more for each of the lowest pairs of bits of the counter that is zero, up to the first that is not. |
| `TimerKernel.TimerList.constructor` | rt-thread/src/timer.c:897-908 | Timers that were only initialised make a list that is right and in one window. |
| `TimerKernel.TimerList.Unlink` | rt-thread/src/timer.c:180-188 | The timer leaves every row, and the temporary list. |
| `TimerKernel.TimerList.PassEarlier` | rt-thread/src/timer.c:422-444 | The walk in one row, by wrapped ticks, ends behind exactly the timers due no later. |
| `TimerKernel.TimerList.FindPlaces` | rt-thread/src/timer.c:419-447 | The search finds the right place in every row, each from behind the timer found in the row above. |
| `TimerKernel.TimerList.LinkRows` | rt-thread/src/timer.c:449-468 | The timer enters the bottom row and one more for each pair of zero bits of the counter. |
| `TimerKernel.TimerList.StartTimer` | rt-thread/src/timer.c:398-473 | Starting is refused during the timer's own callback; otherwise the timer is rearmed from now. |
| `TimerKernel.TimerList.StopTimer` | rt-thread/src/timer.c:548-575 | An active timer is inactive afterwards, in no row and not on the temporary list, and all others keep their places; stopping an inactive one is an error and changes nothing. |
| `TimerKernel.TimerList.SetTime` | rt-thread/src/timer.c:605-613 | A new time is recorded and stops an active timer: it is inactive and in no row, and all others keep their places. |
| `TimerExpiry.AfterTurn` | rt-thread/src/timer.c:705-744 | After its turn a timer is armed again, one period from the end of its callback, if and only if it is still periodic and active; it ends active but unlisted if and only if its callback made it one-shot. |
| `TimerEffects.BegunIs` | rt-thread/src/timer.c:705-721 | While its callback runs a timer is in no row, and active only if it is periodic; no other timer changes. |
| `TimerEffects.EndedIs` | rt-thread/src/timer.c:729-744 | After the callback it is armed again, one period from then, if periodic and active, and else nothing changes but the end of its turn. |
| `TimerExpiry.ActiveUnlisted` | rt-thread/src/timer.c:705-744 | A timer whose callback makes it one-shot, active and in no list afterwards. |
| `TimerExpiry.FirstDueFirst` | rt-thread/src/timer.c:696-705 | No timer fires before its time, nor before one that is due earlier. |
| `TimerExpiry.QuietTurn` | rt-thread/src/timer.c:696-746 | A turn in which nothing else happens takes exactly the timer whose turn it is off those that are due, or none when that timer is periodic with a period of zero. |
| `TimerExpiry.LoopEnds` | rt-thread/src/timer.c:696-746 | With nothing else going on, the loop ends after some number of turns if and only if no timer that is due is periodic with a period of zero. |
| `TimerExpiry.ExpiredTest` | rt-thread/src/timer.c:701-705 | The test on wrapped ticks says exactly whether the first timer is due. |
| `TimerKernel.TimerList.Check` | rt-thread/src/timer.c:670-750 | Whatever the callbacks legally do, the loop ends, timers have their turns in list order and never early, and on return no waiting timer is due at the tick last read. |
| `TimerEffects.OffNoTurn` | rt-thread/src/timer.c:670-750 | A timer that is not active at some moment has no turn from then on, unless a callback starts it. |
| `TimerEffects.StopIsFinal` | rt-thread/src/timer.c:670-750 | A timer that a callback stops, or gives a new time, has no turn after that one, unless it is started again. |
| `MessageState.Places` | rt-thread/src/ipc.c:3405-3542 | Every node is in exactly one place: the queue, the free list, or one call under way. |
| `MessageState.Bounded` | rt-thread/src/ipc.c:3533-3542 | Queued, free and held nodes add up to the number of messages. |
| `MessageState.PlacedDescending` | rt-thread/src/ipc.c:3492-3517 | A message sent by priority goes behind all of at least its priority and keeps the queue descending. |
| `MessageKernel.ChainAfter` | rt-thread/src/ipc.c:3500-3516 | Writing the link of one node links another in behind it. |
| `MessageKernel.MessageQueue.constructor` | rt-thread/src/ipc.c:3084-3143 | All nodes are on the free list of a fresh queue. |
| `MessageKernel.MessageQueue.SendBegin` | rt-thread/src/ipc.c:3403-3488 | The first half of a send or an urgent send takes the first free node, which then holds exactly the bytes that were given, and changes no other node, or changes nothing when there is none or the message is too long. |
| `MessageKernel.MessageQueue.SendEnd` | rt-thread/src/ipc.c:3518-3557 | The second half links the node behind the last message and counts it; the counter never overflows. |
| `MessageKernel.MessageQueue.FindPlace` | rt-thread/src/ipc.c:3497-3516 | The walk finds the node behind which a message of this priority belongs. |
| `MessageKernel.MessageQueue.SendEndByPriority` | rt-thread/src/ipc.c:3492-3517 | With the priority option the node goes behind the messages at least as urgent. |
| `MessageKernel.MessageQueue.UrgentEnd` | rt-thread/src/ipc.c:3681-3718 | An urgent message goes in front of all others. |
| `MessageKernel.MessageQueue.RecvBegin` | rt-thread/src/ipc.c:3845-3872 | The first half of a receive takes the first message; head, tail and counter stay right. |
| `MessageKernel.MessageQueue.RecvEnd` | rt-thread/src/ipc.c:3874-3889 | The second half delivers as much as the buffer takes and frees the node. |
| `MessageKernel.MessageQueue.Reset` | rt-thread/src/ipc.c:3983-4016 | A reset frees every queued node and no node that a call holds. |
| `MessageRuns.StepConserved` | rt-thread/src/ipc.c:3390-4016 | No half of a call loses or duplicates a node or changes a message that waits. |
| `MessageRuns.RunConserved` | rt-thread/src/ipc.c:3390-4016 | After any interleaving of halves each node is in exactly one place. |
| `MessageRuns.Fifo` | rt-thread/src/ipc.c:3390-3889 | Without urgent sends, priorities and resets, messages are received in the order in which they were linked in, whatever the interleaving. |
| `MessageRuns.RunDescending` | rt-thread/src/ipc.c:3492-3517 | With the priority option and no urgent sends, the queue is descending after any interleaving. |
| `MessageRuns.FifoByPriority` | rt-thread/src/ipc.c:3390-3889 | With the priority option, in every run without urgent sends and resets: for every priority, the waiting and then the linked messages of it are, in order, those received and then those still waiting. |
| `MessageBodies.HeldThroughout` | rt-thread/src/ipc.c:3390-4016 | From the first half of a call to the second, whatever runs in between, the node it holds keeps its bytes and its priority. |
| `MessageBodies.Delivered` | rt-thread/src/ipc.c:3845-3889 | What a receive delivers in its second half are the bytes of the message that waited first when it began. |
| `MessageBodies.LinkedAreGiven` | rt-thread/src/ipc.c:3403-3557 | The messages that a run links in hold the bytes given to the first halves of their sends. |
| `MessageBodies.GivenInOrder` | rt-thread/src/ipc.c:3390-3889 | Without urgent sends, priorities and resets: the bytes received and those still waiting are, in order, those that waited at the start and those that were given to the sends, in the order in which these linked them in. |
| `MessageBodies.GivenByPriority` | rt-thread/src/ipc.c:3390-3889 | The same with the priority option, for the messages of each priority. |
| `MessageRuns.MostUrgentFirst` | rt-thread/src/ipc.c:3845-3872 | At any moment of such a run, what the next receive takes is the first message, and at least as urgent as all that wait. |
| `MessageRuns.UrgentDescending` | rt-thread/src/ipc.c:3681-3690 | An urgent send keeps the queue descending if and only if the priority its node last had is no less than that of the first message. |
| `MessageRuns.UrgentBreaks` | rt-thread/src/ipc.c:3681-3690 | A run of four halves on a fresh queue that leaves a less urgent message first. |
| `MessageRuns.Execute` | rt-thread/src/ipc.c:3390-4016 | The in-place halves take exactly these steps. |
| `RomImage.BinName` | board/ports/mkromfs.py:32-36 | A name is followed by one to four zeros. |
| `RomImage.WordRead` | board/ports/mkromfs.py:165-168 | A packed 32-bit number reads back. |
| `RomImage.EntriesRead` | board/ports/mkromfs.py:165-214 | Following the pointers of a table of entries rebuilds exactly the children that were laid out. |
| `RomWriter.BinData` | board/ports/mkromfs.py:165-214 | The recursive writer produces the layout in one pass, and fails if and only if a number does not fit its 32-bit field. |
| `RomWriter.GetBinData` | board/ports/mkromfs.py:233-244 | The image with its root entry, or the failure to pack it. |
| `RomWriter.SmallImageFits` | board/ports/mkromfs.py:233-244 | Every image that ends below 2^32 is written. |
| `RomWriter.RoundTrip` | board/ports/mkromfs.py:165-244 | For every tree with names free of zeros and every base, a reader of a written image finds exactly that tree. |
| `RomWriter.ExtentsApart` | board/ports/mkromfs.py:165-244 | All tables, names and data that a reader follows lie in the image, one after the other and apart; all are 4-aligned if and only if the base is and every name's padding comes out even. |
| `RomWriter.AsciiIsEven` | board/ports/mkromfs.py:32-36 | ASCII names always do. |
| `RomWriter.AccentedNameMisaligns` | board/ports/mkromfs.py:32-36 | A one-letter accented name does not. |
| `WorstCaseStack.CalcWcs` | rt-thread/tools/WCS.py:245-290 | One search, from any point of a run: results already there stay, and every new one is right. |
| `WorstCaseStack.CalcAllWcs` | rt-thread/tools/WCS.py:245-299 | Every function ends with a right result: unbounded if and only if it reaches recursion or a call through a pointer, and otherwise the maximum over all call chains of the summed stacks, with exactly the unresolved names of everything it reaches. |
| `WorstCaseStack.OrderIrrelevant` | rt-thread/tools/WCS.py:291-299 | Two right results agree whatever the order of functions and of calls. |
| `WorstCaseStack.ParentIsRecursive` | rt-thread/tools/WCS.py:264-267 | A function found among its own callers is recursive. |
| `CallGraph.HopelessCases` | rt-thread/tools/WCS.py:269-281 | A function is unbounded only through a pointer call of its own or an unbounded callee, even inside a cycle. |
| `CallGraph.WorstCaseStep` | rt-thread/tools/WCS.py:283-290 | The worst case is the own stack plus the largest worst case among the callees. |
| `CallGraph.UnresolvableStep` | rt-thread/tools/WCS.py:286-288 | The unresolved names are the own ones and those of the callees. |

## Left out

- Context switching, interrupt masking, spinlocks and inter-processor interrupts: each locked region is one step, and an interrupt's request to reschedule is a later switch.
- Mutex detach and delete, and the priority change of a thread by control: neither re-sorts wait queues or propagates.
- MutexKernel.Kernel.Abandon: waking the thread and the clean-up it then runs are one step, because between the two the recorded priority may be stale.
- MutexKernel.Kernel.Release: a waiter that cannot be made ready any more, because a time-out races with the hand-over, is not modelled, so the loop over such waiters is a single choice.
- MutexKernel.Kernel.Take: the waiting thread's return is part of `Release` (it was handed the mutex) or `Abandon`; the arming of its timer is not modelled.
- MutexRuns.Run: a history ends with the first hand-over past a ceiling, behind which one equation is open.
- Semaphores, mailboxes, events and memory pools: simpler forms of the same wait lists and free lists.
- SmallMem.SmallMem.constructor: it is given the size that `SmallMem.HeapSize` cuts out of the region.
- SmallMem.SmallMem.Copy: payload bytes are kept beside the headers, which is sound because payloads and headers are disjoint.
- SlabRuns.Run: without slab reallocation, in which a chunk of the same rounded size stays and anything else is an allocation, a copy and a release.
- SlabZones.Take: a zone's chain of freed chunks is a sequence of addresses, and zone headers are kept beside the pages; the copy in the chunks themselves is not modelled.
- MemHeapKernel.MemHeap.Realloc: the copied bytes are not modelled, the heap's semaphore is one lock held during each call, and where the growing test wraps the model says so and stops, because the header that is then written lies across another.
- MemHeapRuns.Run: a history ends before a reallocation whose growing test wraps, behind which the heap is not right.
- The best-fit option of the memory heap's free list.
- ReadyTables.Ffs: a machine word is the set of its one bits, and find-first-set is its least element plus one; queue nodes name their thread by number.
- SmpRuns.Admitted: any step may happen at any time; what holds a switch off is proved about separately (`SmpGate`, and the methods of `SmpKernel.Scheduler` that keep its counters, which do not wrap there). A switch itself is one step with the end of `rt_sched_post_ctx_switch`.
- Signals, time-slice hooks, stack checks and logging.
- SmpKernel.Scheduler.MakeReady: whether the thread's timer could be stopped is a parameter; the wait list it leaves is not modelled.
- TimerKernel.TimerList.Check: callbacks are scripts of calls and clock ticks, and later ones do nothing; no waiting timer gets more overdue than the window allows, and once the script is over no timer that is due is periodic with a period of zero, with which the loop would not end.
- Soft timers run the same code on a second list; the timer thread that sleeps until the next deadline is not modelled.
- MessageRuns.Admitted: a blocked call is one that has not made its first half yet; its suspension, time-out and wake-up are not modelled.
- MessageKernel.MessageQueue.RecvEnd: the copy of the message happens with the second half.
- RomWriter.BinData: directory walking, sorting, the C text form and native byte orders other than little-endian.
- RomImage.ReadEntry: the reader follows directories up to a given depth, and the results hold for every depth that reaches the leaves.
- WorstCaseStack.CalcAllWcs: reading the compiler's files, name resolution, and printing; two functions count as the same one only if they are, where the source compares their records. What it collects of unresolved names for an unbounded function depends on the order of calls and is not stated.
- UpRuns.SwitchAfterRun: the idle thread is a parameter.
