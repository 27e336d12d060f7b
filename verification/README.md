# A small x86-64 kernel, modelled and proved

This project models the parts of a teaching kernel whose correctness depends on more than one
function: two allocators, the process queues with the scheduler on top of them, the semaphores, the
pipes built from semaphores, two user programs that rely on those semaphores, the first-fit disk
directory, the packer and loader of the boot image, and the printing and parsing of numbers.

One rule of the machine is used throughout. There is one processor and system calls run with
interrupts off (`Kernel/syscalls/syscallDispatcher.c:215`), so the code between two places where a
caller can lose the processor is one atomic step. A concurrent program is a function from a state and
a step to a state; a run is any sequence of steps, and the theorems hold for all runs. An interrupt handler
runs on top of whoever is current, idle included (`Kernel/asm/interrupts.asm:121-124`); what it does to the
kernel, such as the post that ends a wait for a key or the kill of the foreground process
(`Kernel/drivers/keyboardDriver.c:176-189`), is a step like any other.

Code that updates things in place is a class or a method on an array, and its `ensures` ties the new
state to a function of the old one. The theorems are about those functions.

## How the modules fit together

| module | models |
|---|---|
| `Dyadic` | powers of two, XOR, AND and the integer logarithm, on unbounded naturals |
| `BuddyTiles`, `BuddyTheorems` | the buddy heap as a tiling with free lists: invariant, counter, completeness, undoing |
| `BuddyManager` | the buddy allocator itself, headers in memory and a table of list heads, refining the tiling |
| `BitmapManager` | the bitmap allocator, its run grammar and its next-fit search |
| `Queues` | the linked queue, refining a sequence |
| `Semaphores` | `wait` and `post`, every run of them, and the record with its linked queue |
| `PipeSystem`, `PipeTheorems`, `PipeRequests` | the ring buffer and any number of readers, writers and clearers, and what each call was asked for |
| `Philosophers`, `PhilosopherTheorems`, `PhilosopherCases` | the dining philosophers with a growing table |
| `SharedCounter` | the counter of the synchronisation program |
| `Processes`, `Scheduler`, `KernelRuns` | the process queues, every scheduler call, and runs of them |
| `KernelCalls` | the exact state each call leaves, by process and not by search |
| `Parents` | who may wait for whom, and that no exit value is lost, over whole runs |
| `KernelCases` | runs from boot that reach each state in which the kernel misses its purpose |
| `Fairness`, `RoundRobin` | how long a ready process waits, who runs when, and how the machine leaves idle |
| `ProcessManager` | the process manager as classes over four linked queues, refining the functions above, and the process table |
| `BmfsDirectory`, `BmfsCases` | first-fit placement of files on the disk, and the runs in which it goes wrong |
| `ModuleImages` | packing modules behind the kernel and loading them to their targets |
| `Numerals` | printing integers into a buffer and parsing them |

## What turned out not to hold

Each of these is kept as the code has it, with a proof of exactly when the code does meet the purpose and,
where the state is not an obvious one, a run that reaches it.

- Everything freed does not mean one block again. The shipped heap starts at 3 * 2^21, and the partner
  address is computed from the absolute address, so blocks below level 23 do not merge back into the root
  (`BuddyTheorems.ShippedHeap`, `ShippedHeapFragments`). `FreeUndoesAllocExactly` gives the condition
  under which freeing undoes an allocation.
- `waitpid` does not wait for a child that waits on a semaphore: it blocks only for states numbered below
  ZOMBIE, WAITING_SEM is numbered above, and the call returns an error at once. `KernelRuns.WaitPidOutcome`
  says in which state of the child it returns the value, waits, or fails; `KernelCases.OwnChildNotWaitedFor`
  is a run from boot.
- Semaphore queues and waiting processes can come apart. `KernelRuns.NextKeepsSemsExactly` says which steps
  do it: blocking or killing a process that waits, closing a semaphore with waiters, and a wait for a missing
  token while idle is current, which queues idle's pid and lets the caller through
  (`KernelCases.KilledPidStaysBehind`, `KernelCases.IdleJoinsTheWaiters`).
- Creating a process can break the bookkeeping for the idle priority or while the idle process runs;
  `KernelRuns.CreationKeepsExactly` is the exact condition (`KernelCases.IdlePriorityIsLost`,
  `KernelCases.CreatedOverIdle`).
- A new philosopher can leave a hungry one without an eating neighbour
  (`PhilosopherTheorems.SeatingKeepsProgressExactly`, `PhilosopherCases.SeatingStrandsTheHungry`); the table is
  still never deadlocked (`NeverDeadlocked`).
- Semaphore values are 32 bits wide and wrap: 2^32 - 1 and one more post lose every token
  (`Semaphores.OverflowLosesTokens`). Paired use never gets there (`PairedKeepsTokens`); the theorem about
  arbitrary posts bounds their number.
- A request that does not fit a directory with deleted entries can be given blocks of another file
  (`BmfsDirectory.CreateIsSafeExactly`, `BmfsCases.DeletedEntryMisleads`). A directory whose last entry was
  taken is read as an empty one (`BmfsDirectory.FullCreationIsSafeExactly`, `BmfsCases.LastEntryTaken`,
  `BmfsCases.FullDirectoryGoesWrong`).
- `intToStr` prints a negative number as the unsigned 64-bit number it converts to, which the parser
  cannot read within 64 bits (`Numerals.IntRoundTripExactly`).

## Model

| member | source | states |
|---|---|---|
| Dyadic.XorPow2 | Kernel/memoryManagement/buddyMemoryManager.c:256-257 | XOR of an absolute address with a power of two adds it or takes it off, as that bit of the address says |
| Dyadic.AndPredecessor | Kernel/memoryManagement/buddyMemoryManager.c:96-99 | `x & (x - 1)` is zero exactly for powers of two |
| BuddyTiles.InitialInv | Kernel/memoryManagement/buddyMemoryManager.c:54-82 | the fresh heap is one free root block on the list of its level and satisfies the whole heap invariant |
| BuddyTiles.BuddyIsLive | Kernel/memoryManagement/buddyMemoryManager.c:250-266 | below the alignment of the base the partner address is always the start of a live block, of at most the same level |
| BuddyTiles.AllocKeeps | Kernel/memoryManagement/buddyMemoryManager.c:84-212 | allocation keeps the tiling, the lists and the coalescing; a block handed out was free before and has the asked level |
| BuddyTiles.CoalesceKeeps | Kernel/memoryManagement/buddyMemoryManager.c:268-313 | merging a freed block as far as it goes ends, and restores that no two partners are free at the same level |
| BuddyTiles.FreeKeeps | Kernel/memoryManagement/buddyMemoryManager.c:219-248 | freeing a live block keeps the whole heap invariant, coalescing included |
| BuddyTheorems.NothingLost | Kernel/memoryManagement/buddyMemoryManager.c:84-313 | from any block on, free and allocated bytes add up to the rest of the root block: nothing leaks, nothing overlaps |
| BuddyTheorems.AllocUsed | Kernel/memoryManagement/buddyMemoryManager.c:114-125 | the bytes in allocated blocks grow by the size of the block handed out, however many splits it took |
| BuddyTheorems.FreeUsed | Kernel/memoryManagement/buddyMemoryManager.c:219-248 | the bytes in allocated blocks shrink by the size of the block given back, however many merges follow |
| BuddyTheorems.AllocTakesLowest | Kernel/memoryManagement/buddyMemoryManager.c:128-212 | a success takes the head of the lowest non-empty list at or above the level, and each list passed on the way down, empty before, gains exactly the right half of one split |
| BuddyTheorems.AllocAddsOne | Kernel/memoryManagement/buddyMemoryManager.c:84-212 | allocation adds one block of the level asked to those held, not held before, and touches nobody else's; when it fails nothing changes |
| BuddyTheorems.FreeRemovesOne | Kernel/memoryManagement/buddyMemoryManager.c:219-313 | freeing takes exactly that block off those held, however many merges follow |
| BuddyTheorems.HeldApart | Kernel/memoryManagement/buddyMemoryManager.c:84-313 | blocks held at the same time never overlap and lie in the root block |
| BuddyTheorems.AllocFailsExactly | Kernel/memoryManagement/buddyMemoryManager.c:128-176 | up to the alignment level, allocation fails if and only if no aligned window of that size is wholly free: coalescing loses no room |
| BuddyTheorems.AllocFailsByLists | Kernel/memoryManagement/buddyMemoryManager.c:128-176 | at any level, above the alignment too, allocation fails if and only if every free list from that level up is empty |
| BuddyTheorems.FreeThenAlloc | Kernel/process/process.c:229-236 | after a block is freed, a request for no more than its size succeeds, so taking a process off a queue and putting it back cannot run out of memory |
| BuddyTheorems.EverythingFreed | Kernel/memoryManagement/buddyMemoryManager.c:250-313 | once everything is freed no block below the alignment level is left, and with an aligned base only the root block is |
| BuddyTheorems.FreeUndoesAllocExactly | Kernel/memoryManagement/buddyMemoryManager.c:84-313 | freeing what was just allocated restores the heap, lists and all, if and only if the address is on the dyadic grid for every level split and the block taken cannot merge further |
| BuddyTheorems.FreeUndoesAlloc | Kernel/memoryManagement/buddyMemoryManager.c:84-313 | it does so whenever the block taken lies below the alignment level, and always when the base is aligned to the whole heap |
| BuddyTheorems.ShippedHeap | Kernel/include/defs.h:25-27 | the shipped base is aligned to level 21 and not 22, and its heap has a root of level 28 |
| BuddyTheorems.ShippedHeapFragments | Kernel/include/defs.h:25-27 | on the fresh shipped heap, allocating a block and freeing it restores the heap if and only if its level is at least 23 |
| BuddyManager.LevelFits | Kernel/memoryManagement/buddyMemoryManager.c:322-328 | the level of a request is the least whose blocks hold the bytes and the header, and is in range exactly for the requests that fit in 2^32 |
| BuddyManager.UserAreasApart | Kernel/memoryManagement/buddyMemoryManager.c:84-126 | the bytes of two requests held at the same time overlap neither one another nor the other's header |
| BuddyManager.BuddyReadsRight | Kernel/memoryManagement/buddyMemoryManager.c:268-275 | the test on the partner's header (FREE, same level) answers exactly whether the partner is a live free block of that level |
| BuddyManager.AlignedBaseIsQuiet | Kernel/memoryManagement/buddyMemoryManager.c:250-266 | with an aligned base that test is right whatever user programs write into their blocks |
| BuddyManager.Log2Loop | Kernel/memoryManagement/buddyMemoryManager.c:46-52 | the shifting loop computes the integer logarithm |
| BuddyManager.Manager.constructor | Kernel/memoryManagement/buddyMemoryManager.c:54-82 | heads, counter and root header set up a heap that represents the initial tiling; a misaligned base sets the error status |
| BuddyManager.Manager.PopHead | Kernel/memoryManagement/buddyMemoryManager.c:137-147 | taking the head off a free list leaves the remaining list well linked and the block without links |
| BuddyManager.Manager.FindFreeBlock | Kernel/memoryManagement/buddyMemoryManager.c:128-176 | the search over the table of heads finds what the tiling's allocation finds, or NULL when it finds nothing |
| BuddyManager.Manager.SplitBlockToLevel | Kernel/memoryManagement/buddyMemoryManager.c:178-212 | the recursive splitting relinks headers so that memory represents the tiling split down to the target level |
| BuddyManager.Manager.RequestLevel | Kernel/memoryManagement/buddyMemoryManager.c:89-101 | the rounding of a request to a power of two and its level |
| BuddyManager.Manager.AllocMemory | Kernel/memoryManagement/buddyMemoryManager.c:84-126 | headers, list heads and counter after allocation represent the tiling's allocation; too large a request sets the error status for good |
| BuddyManager.UnlinkLinked | Kernel/memoryManagement/buddyMemoryManager.c:278-295 | the pointer updates take a block out of a well-linked list wherever it stands and leave the others well linked in order |
| BuddyManager.UnlinkRep | Kernel/memoryManagement/buddyMemoryManager.c:278-295 | memory and heads after those updates represent the heap without that free block |
| BuddyManager.Manager.MergeBlocks | Kernel/memoryManagement/buddyMemoryManager.c:268-313 | the recursive merging over headers represents the tiling coalesced around the block |
| BuddyManager.Manager.FreeMemory | Kernel/memoryManagement/buddyMemoryManager.c:219-248 | the header is checked, the block freed and merged and the counter lowered; NULL and blocks that are not allocated change nothing |
| BuddyManager.Manager.GetMemoryInfo | Kernel/memoryManagement/buddyMemoryManager.c:330-337 | the total is the heap size, the used figure is the bytes in allocated blocks, and the free figure is the bytes in free blocks plus those of the heap that lie beyond the root block |
| BitmapManager.QtyFits | Kernel/memoryManagement/bitmapMemoryManager.c:39-41 | the number of blocks for a request is the least that holds it |
| BitmapManager.WellMarkedIsGrammar | Kernel/memoryManagement/bitmapMemoryManager.c:68-77 | a bitmap that keeps the local marking rules is a concatenation of FREE, SINGLE_BLOCK and START USED* END runs |
| BitmapManager.GrammarIsWellMarked | Kernel/memoryManagement/bitmapMemoryManager.c:68-77 | and every such concatenation keeps the local rules, so the two readings are the same |
| BitmapManager.TakenKeeps | Kernel/memoryManagement/bitmapMemoryManager.c:68-104 | marking a free run keeps the grammar and makes the run a group |
| BitmapManager.ReleasedKeeps | Kernel/memoryManagement/bitmapMemoryManager.c:106-128 | releasing a group keeps the grammar |
| BitmapManager.ReleaseUndoesTake | Kernel/memoryManagement/bitmapMemoryManager.c:79-128 | releasing what was taken restores the bitmap |
| BitmapManager.TakenGroups | Kernel/memoryManagement/bitmapMemoryManager.c:68-104 | taking a run adds exactly that group and disturbs no other |
| BitmapManager.ReleasedGroups | Kernel/memoryManagement/bitmapMemoryManager.c:106-128 | releasing a group removes exactly that group |
| BitmapManager.GroupsDisjoint | Kernel/memoryManagement/bitmapMemoryManager.c:68-104 | two groups of one bitmap are the same or do not overlap |
| BitmapManager.StartHasGroup | Kernel/memoryManagement/bitmapMemoryManager.c:115-124 | every START mark begins a group of known extent, so the scan for its END stays in bounds |
| BitmapManager.RunFitsCount | Kernel/memoryManagement/bitmapMemoryManager.c:82-84 | a free run is never longer than the number of blocks not in use, so giving up on the count loses nothing |
| BitmapManager.Manager.constructor | Kernel/memoryManagement/bitmapMemoryManager.c:25-37 | a fresh bitmap, all FREE |
| BitmapManager.Manager.FindFreeBlocks | Kernel/memoryManagement/bitmapMemoryManager.c:49-66 | the scan returns the first free run at or after its start, or NULL exactly when there is none |
| BitmapManager.Manager.MarkGroupAsUsed | Kernel/memoryManagement/bitmapMemoryManager.c:68-77 | the marks and the counter after a group of two or more is taken |
| BitmapManager.Manager.AllocMemory | Kernel/memoryManagement/bitmapMemoryManager.c:79-104 | NULL if and only if no run of that many FREE entries exists anywhere; otherwise the first run from `current` on, or else the first one at all, is marked and nothing else changes |
| BitmapManager.Manager.FreeMemory | Kernel/memoryManagement/bitmapMemoryManager.c:106-128 | an address that begins a group releases exactly that group; any other address changes nothing |
| BitmapManager.Manager.GetMemoryInfo | Kernel/memoryManagement/bitmapMemoryManager.c:129-136 | the used figure is the number of marked blocks in bytes, and the three figures add up |
| Queues.Queue.Enqueue | Kernel/ds/queue.c:41-61 | the item joins at the rear; without memory the queue is as it was and -1 is returned |
| Queues.Queue.Dequeue | Kernel/ds/queue.c:63-77 | the front item leaves, or NULL from an empty queue |
| Queues.Queue.ContainsQueue | Kernel/ds/queue.c:115-127 | the first item the comparison accepts, or NULL |
| Queues.Queue.RemoveFromQueue | Kernel/ds/queue.c:129-155 | exactly the first accepted item leaves, at the front, in the middle or at the rear, and is returned |
| Queues.Queue.DumpQueue | Kernel/ds/queue.c:157-173 | a fresh array of the items in order, or NULL for an empty queue or without memory |
| Semaphores.EveryRunIsFifo | Kernel/semaphores/semaphore.c:87-119 | in every run of waits and posts, tokens are granted in the order asked, and a positive value means nobody waits |
| Semaphores.TokensConserved | Kernel/semaphores/semaphore.c:40-119 | initial value plus posts is the value plus the waits granted; those who asked are those granted followed by those waiting |
| Semaphores.OverflowLosesTokens | Kernel/semaphores/semaphore.c:106-119 | at the top of the 32-bit range one more post loses all tokens |
| Semaphores.PairedKeepsTokens | Kernel/semaphores/semaphore.c:87-119 | if only holders post, the value and the number of holders add up to the initial value in every run, of any length |
| Semaphores.MutualExclusion | Kernel/semaphores/semaphore.c:87-119 | a semaphore opened with 1 then admits at most one holder, and the value is 1 exactly when there is none |
| Semaphores.Semaphore.WaitFor | Kernel/semaphores/semaphore.c:87-104 | the record after `wait`: a token less, or the caller last in the linked queue; without memory nothing changes |
| Semaphores.Semaphore.PostOne | Kernel/semaphores/semaphore.c:106-119 | the record after `post`: the first waiter leaves with the token, or the value grows |
| PipeSystem.PipeBuffer.Take | Kernel/pipes/pipes.c:92-97 | the oldest byte held leaves the ring; an empty ring changes nothing |
| PipeSystem.PipeBuffer.Put | Kernel/pipes/pipes.c:119-124 | the byte becomes the newest held, or is dropped from a full ring |
| PipeSystem.PipeBuffer.Clear | Kernel/pipes/pipes.c:160-173 | the ring holds nothing |
| PipeTheorems.NextKeeps | Kernel/pipes/pipes.c:79-131 | every step of every call, with any readers, writers and clearers, keeps the invariant: tokens and calls in flight add up to 100, one holder of the mutex, queues and callers agree, and the ring holds what the history says |
| PipeTheorems.InsideFindsRoom | Kernel/pipes/pipes.c:86-128 | a writer inside the mutex always finds room, clears included; without clears a reader always finds a byte |
| PipeTheorems.NothingDropped | Kernel/pipes/pipes.c:79-131 | from a fresh pipe, in every run, a finished write stored all its bytes in order, and without clears a finished read took exactly its size |
| PipeTheorems.OnlyImbalanceBlocks | Kernel/pipes/pipes.c:79-131 | when nothing can move, nobody waits for the mutex, readers and writers do not both wait, waiting readers face an empty ring and, without clears, waiting writers a full one |
| PipeTheorems.BytesConserved | Kernel/pipes/pipes.c:79-173 | in every run, clears included, bytes written are bytes read, bytes in the ring and bytes cleared away |
| PipeTheorems.FirstInFirstOut | Kernel/pipes/pipes.c:79-131 | in every run without clears, with any number of readers and writers: the bytes written make one stream that keeps each writer's order, its first part is handed out byte by byte, each to one reader, every reader's buffer holds the bytes handed to it in order, and the ring holds the rest |
| PipeTheorems.BytesArriveInOrder | Kernel/pipes/pipes.c:79-131 | with one reader and one writer, what was read is a prefix of what was written |
| PipeRequests.NextKeepsRequests | Kernel/pipes/pipes.c:79-131 | no step of any call changes what any call was made for, its role, its size or a writer's bytes, and only a new call adds one |
| PipeRequests.RequestsAreServed | Kernel/pipes/pipes.c:79-131 | a call made with given bytes at any moment of any run: once it returned, a writer has stored exactly those bytes, and without clears a reader holds exactly as many bytes as asked, those handed to it; before that a writer has stored a first part of them |
| PipeRequests.ClearEmpties | Kernel/pipes/pipes.c:160-173 | after the inside of a clear the ring is empty, and what it held was handed to nobody |
| PipeRequests.EveryClearClears | Kernel/pipes/pipes.c:160-173 | in every run the ring has been cleared exactly as often as clear calls went through their critical section, so a clear that returned has cleared |
| Philosophers.RingArithmetic | Userland/SampleCodeModule/phylo.c:14-15 | LEFT and RIGHT are the neighbours round the ring and inverse to one another |
| Philosophers.SharedMoods.TestOne | Userland/SampleCodeModule/phylo.c:32-38 | a hungry philosopher without an eating neighbour, found by remainder arithmetic, starts eating in the shared array, and only then is its semaphore posted |
| Philosophers.SharedMoods.TakeSection | Userland/SampleCodeModule/phylo.c:40-46 | the array and the post after the inside of takeForks |
| Philosophers.SharedMoods.PutSection | Userland/SampleCodeModule/phylo.c:48-54 | the array and the posts after the inside of putForks, left neighbour first |
| Philosophers.SharedMoods.SeatSection | Userland/SampleCodeModule/phylo.c:69-112 | one more THINKING philosopher at the end of the table, everyone else as before |
| PhilosopherTheorems.NextKeeps | Userland/SampleCodeModule/phylo.c:32-112 | every step of a philosopher or of the one who seats new ones keeps the invariant that ties moods, forks and program points |
| PhilosopherTheorems.NeighboursNeverEatTogether | Userland/SampleCodeModule/phylo.c:32-112 | in every run from the empty table, of any size and with additions, no two distinct neighbours eat at once, and whoever has left takeForks is EATING |
| PhilosopherTheorems.FixedTableProgress | Userland/SampleCodeModule/phylo.c:32-67 | at a fixed table, whenever the mutex is free every HUNGRY philosopher has an EATING neighbour, so they are never all HUNGRY |
| PhilosopherTheorems.SeatingKeepsProgressExactly | Userland/SampleCodeModule/phylo.c:69-112 | seating one more keeps that property if and only if the two at the seam are not left without an eating neighbour |
| PhilosopherCases.SeatingStrandsTheHungry | Userland/SampleCodeModule/phylo.c:69-112 | a run that seats three, lets the third eat and the first get hungry, and seats a fourth between them: the first has no eating neighbour left |
| PhilosopherTheorems.NeverDeadlocked | Userland/SampleCodeModule/phylo.c:32-112 | in every run, additions included, some philosopher can take a step, or the one who seats is inside the mutex and some philosopher can after its next step |
| SharedCounter.NextKeeps | Userland/SampleCodeModule/tests/test_sync.c:16-50 | every step of every worker, around the yield between read and write, keeps the semaphore and the sum |
| SharedCounter.NoUpdateLost | Userland/SampleCodeModule/tests/test_sync.c:16-50 | with the semaphore, in every run of any workers, the counter is the sum of the increments written, as a 64-bit number, and at most one worker is between read and write |
| SharedCounter.FinalValueIsZero | Userland/SampleCodeModule/tests/test_sync.c:52-100 | once all of any number of +1 and -1 pairs are done, the counter is 0 |
| SharedCounter.FinalValue | Userland/SampleCodeModule/tests/test_sync.c:23-50 | for any workers, each asked to add its own increment its own number of times: once all are done the counter is the sum of what was asked, as a 64-bit number |
| SharedCounter.NobodyStranded | Userland/SampleCodeModule/tests/test_sync.c:23-50 | it never happens that all who are not done are asleep on the semaphore |
| SharedCounter.UnguardedLosesAnUpdate | Userland/SampleCodeModule/tests/test_sync.c:16-50 | without the semaphore one pair can finish at 1 |
| Processes.KillSettled | Kernel/process/process.c:296-323 | a killed process leaves its queue for the zombies, and neither the current nor the foreground pointer keeps it |
| Scheduler.NextKeeps | Kernel/process/scheduler.c:60-305 | create, tick, yield, block, unblock, kill, waitpid, changePrio, semWait and semPost, in system calls or in interrupt handlers over any current process, each keep the partition, unique pids, matching states and valid pointers |
| KernelRuns.EveryProcessInOneQueue | Kernel/process/process.c:102-323 | in every run, each process but idle is in exactly one of the four queues, idle in none, pids are unique, only the current process is RUNNING, and the current and foreground pointers reach live processes that are not zombies |
| KernelRuns.CreationKeepsExactly | Kernel/process/scheduler.c:60-116 | creation keeps all that if and only if the process could not be allocated or its priority and the running process allow it |
| KernelRuns.WaitPidOutcome | Kernel/process/scheduler.c:237-287 | waiting for one's own child returns its value and frees it if it is a zombie, blocks the caller if it is ready or blocked, and fails if it waits on a semaphore |
| KernelRuns.ResumedParentReaps | Kernel/process/scheduler.c:204-217 | a parent that resumes after its child ended gets the child's value, and the child's process is freed, once and for good |
| KernelRuns.WakeParentOutcome | Kernel/process/scheduler.c:219-235 | when a child ends, exactly the parent that waits for it is woken |
| KernelRuns.WakeParentChild | Kernel/process/scheduler.c:219-235 | the ended child stays a zombie for a parent to collect, and is freed at once when it has none |
| KernelRuns.KillVictim | Kernel/process/scheduler.c:183-201 | what becomes of the victim: a zombie with the return value, or freed at once without a parent |
| KernelRuns.KillOthersOutcome | Kernel/process/scheduler.c:183-201 | what becomes of everyone else: the waiting parent is woken, others at most change between READY and RUNNING |
| KernelRuns.DispatchOutcome | Kernel/process/scheduler.c:128-173 | giving up the processor changes no process except between READY and RUNNING |
| KernelRuns.NextKeepsSemsExactly | Kernel/process/scheduler.c:150-201 | a step keeps the pids queued on semaphores and the WAITING_SEM processes in agreement if and only if it neither blocks nor kills a waiter, closes a semaphore with waiters, nor waits for a missing token over idle |
| KernelRuns.SemaphoresAgree | Kernel/semaphores/semaphore.c:87-119 | in every run of such steps, the pids queued on semaphores are exactly the WAITING_SEM processes, each once |
| KernelRuns.WaitKeepsAgreementExactly | Kernel/semaphores/semaphore.c:87-104 | a wait keeps that agreement if and only if the token is there or somebody other than idle is current |
| KernelRuns.KillKeepsAgreementExactly | Kernel/process/scheduler.c:183-201 | a kill keeps that agreement if and only if the victim is not waiting on a semaphore |
| KernelRuns.PostWakesFirst | Kernel/semaphores/semaphore.c:106-119 | a post with waiters makes exactly the longest-waiting process ready, at the rear of the ready queue, and leaves the value at 0 |
| KernelCalls.TickOutcome | Kernel/process/scheduler.c:128-148 | a tick uses up one of the running quantum, or hands the processor to the head of the ready queue, or to idle: its quantum is 18 - 3 * p ticks for priority p up to 5 and 3 for idle's, it stands last in line, the foreground pointer follows a foreground process, and nothing else changes |
| KernelCalls.GiveUpOutcome | Kernel/process/scheduler.c:170-173 | yield hands the processor on in that way at once |
| KernelCalls.CreateOutcome | Kernel/process/scheduler.c:60-116 | a new process has a pid nobody has, the current process as parent, nobody it waits for, exit value 0, the foreground flag given and the priority asked, or 5 when that is none; it is last among the ready, or among the blocked if it reads the terminal in the background; everyone else is as before |
| KernelCalls.CreatorMayWait | Userland/SampleCodeModule/tests/test_sync.c:79-87 | whoever creates a process is not turned away by waitpid on it, whether it starts ready or blocked |
| KernelCalls.BlockOutcome | Kernel/process/scheduler.c:150-158 | blocking a process other than idle that is ready, runs or waits for a semaphore: it is blocked, last in that queue and in no other, and if it was current somebody else runs |
| KernelCalls.BlockOthersOutcome | Kernel/process/scheduler.c:150-158 | everyone else keeps the block, up to READY and RUNNING |
| KernelCalls.NobodyBlocked | Kernel/process/process.c:117-141 | blocking any other pid changes nothing at all |
| KernelCalls.UnblockExactly | Kernel/process/process.c:155-165 | unblocking makes a blocked process ready, last in line, and changes nothing when no blocked process has the pid |
| KernelCalls.KillOutcome | Kernel/process/scheduler.c:183-235 | the whole state after a kill: the victim in no queue but the zombies', or freed without a parent, the pointers off it, the parent that waits for it last among the ready, and the processor handed on exactly if the victim was running |
| KernelCalls.NobodyToKill | Kernel/process/scheduler.c:183-191 | killing idle, the shell, a zombie or a pid nobody has changes nothing |
| KernelCalls.WaitPidTable | Kernel/process/scheduler.c:237-273 | waitpid on any process: a stranger is refused and nothing changes, a zombie's value is returned and its block freed, for a ready, running or blocked one the caller sleeps, noted as waiting for it, and one that waits for a semaphore is refused |
| KernelCalls.WaitFailsExactly | Kernel/process/scheduler.c:237-287 | waitpid is refused if and only if nobody has the pid, or the process is no child of the caller and not noted by it, or it waits for a semaphore; then nothing has changed |
| KernelCalls.ResumeTable | Kernel/process/scheduler.c:274-287 | the rest of waitpid returns the value and frees the block of a zombie, and otherwise fails with nothing changed |
| KernelCalls.PrioOutcome | Kernel/process/scheduler.c:290-305 | a priority change sets exactly that field of exactly that process, brought into 0 to 5, and nothing for idle, the shell and unknown pids |
| KernelCalls.SemWaitOutcome | Kernel/semaphores/semaphore.c:87-104 | a wait takes a token, or puts the caller last in both queues and hands the processor on; over idle it only queues pid 0 |
| KernelCalls.SemPostOutcome | Kernel/semaphores/semaphore.c:106-119 | a post adds a token modulo 2^32 when nobody waits, and else makes the first waiter ready, last in line; a queued pid that no sleeping process has is used up with the token |
| KernelCalls.OpenCloseOutcome | Kernel/semaphores/semaphore.c:40-77 | a semaphore opens with the value given and nobody waiting, an open one is left alone, and closing removes that one only |
| Parents.EveryoneWaitsForChildren | Kernel/process/scheduler.c:237-273 | in every run from boot, whomever a process notes as waited for is its own child |
| Parents.OnlyOwnChildren | Kernel/process/scheduler.c:252-254 | in every run from boot, waitpid on a process fails exactly if it is not the caller's own child or waits for a semaphore |
| Parents.OnlyTheParentReaps | Kernel/process/scheduler.c:204-287 | whatever step happens, a zombie keeps its block and exit value, unless its own parent's waitpid frees it and is given that value |
| Parents.ExitValueWaits | Kernel/process/scheduler.c:183-287 | from any moment of any run from boot, an exit value is neither lost nor given to a stranger: the zombie stays until its parent collects exactly that value |
| Parents.IdleKeepsPriority | Kernel/process/scheduler.c:290-294 | no run changes idle's priority, and so its quantum of 3 |
| KernelCases.OwnChildNotWaitedFor | Kernel/process/scheduler.c:262-286 | a run from boot in which the shell waits for its own child and is turned away |
| KernelCases.KilledPidStaysBehind | Kernel/process/scheduler.c:183-201 | a run from boot after which killing the child leaves its pid on a semaphore |
| KernelCases.IdleJoinsTheWaiters | Kernel/semaphores/semaphore.c:93-103 | a run from boot after which a wait over idle queues idle's pid |
| KernelCases.IdlePriorityIsLost | Kernel/process/scheduler.c:114 | a run from boot after which a process created with idle's priority is in no queue |
| KernelCases.CreatedOverIdle | Kernel/process/process.c:78-80 | a run from boot after which a process created over the running idle process becomes current without being dispatched |
| KernelCases.PostBringsTheChildBack | Kernel/drivers/keyboardDriver.c:176-179 | a run from boot to an idle machine, which a post and four ticks bring back to the first waiter |
| Fairness.NextBounded | Kernel/process/process.c:219-243 | no step raises the number of ticks a ready process may still have to wait, and every tick lowers it |
| Fairness.BoundedWaiting | Kernel/process/scheduler.c:128-148 | a process at index i of the ready queue that stays ready is dispatched within 19 * (i + 1) ticks, whatever else happens, priority changes and steps over idle included |
| Fairness.BoundedWaitingByPriorities | Kernel/process/scheduler.c:23-28 | and within the running quantum plus the turns of those ahead while their priorities do not rise |
| RoundRobin.OneTurn | Kernel/process/scheduler.c:128-148 | the head of the queue gets exactly its turn, 19 - 3 * p ticks for priority p up to 5, and goes to the rear |
| RoundRobin.TurnInTicks | Kernel/process/scheduler.c:23-28 | with somebody else ready, the head of the queue holds the processor for n ticks and no more if and only if n is 19 - 3 * p for its priority p up to 5, or 4 for idle's |
| RoundRobin.BetterPriorityLongerTurn | Kernel/process/scheduler.c:23-28 | of two turns the longer is that of the smaller priority number |
| RoundRobin.NewPriorityNextTurn | Kernel/process/scheduler.c:290-305 | after a priority change the next turn of the process, once those ahead have had theirs, lasts exactly as long as the new priority says |
| RoundRobin.IdleTurn | Kernel/process/scheduler.c:24-26 | with nobody ready idle runs for four ticks and then again |
| RoundRobin.FullRotation | Kernel/process/scheduler.c:128-148 | with only the timer acting, all ready processes take their whole turns in order and the queue is back as it was |
| RoundRobin.IdleStays | Kernel/process/process.c:224-227 | with nobody ready, ticks alone never get the machine out of idle |
| RoundRobin.PostWakesIdleMachine | Kernel/semaphores/semaphore.c:106-119 | a post over an idle machine makes the longest waiter run as soon as idle's quantum is used up |
| ProcessManager.QueuesCountAll | Kernel/process/process.c:270-272 | the four queue sizes and one for idle count every process once |
| ProcessManager.TableIsComplete | Kernel/process/scheduler.c:307-335 | the process table lists every live process, idle included, exactly once in ascending pid order |
| ProcessManager.Manager.GetProcessInfo | Kernel/process/scheduler.c:307-335 | the loop over pids ends and fills a fresh array with that table, or returns NULL without memory |
| ProcessManager.SwitchProcess | Kernel/process/process.c:102-115 | the first process with the pid is unlinked from one linked queue and linked at the rear of another, or nothing changes |
| ProcessManager.RotateQueue | Kernel/process/process.c:229-236 | dequeue and enqueue move the head of a linked queue to its rear |
| ProcessManager.ProcessQueues.constructor | Kernel/process/process.c:36-71 | four empty linked queues that share nothing |
| ProcessManager.ProcessQueues.ReadyToZombie | Kernel/process/process.c:305 | a process moves between two of the four linked queues; the other two, and what separates them all, stay |
| ProcessManager.Manager.constructor | Kernel/process/scheduler.c:42-50 | the manager after initScheduler: empty queues and idle, not dispatched |
| ProcessManager.Manager.GetProcessCount | Kernel/process/process.c:270-272 | the sizes kept by the four queues and one for idle |
| ProcessManager.Manager.BlockProcessQueue | Kernel/process/process.c:117-141 | a process found by pid among the ready, or else among those that wait for semaphores, is moved to the rear of the linked queue of the blocked, with its state, and the answer says whether one was found |
| ProcessManager.Manager.BlockProcessQueueBySem | Kernel/process/process.c:143-153 | a ready process is moved to the linked queue of those that wait for semaphores, with its state |
| ProcessManager.Manager.BlockCall | Kernel/process/scheduler.c:150-158 | the block call over linked queues is the block of the theorems, and answers 0 exactly when a process other than idle with that pid was ready, running or waiting for a semaphore, and else -1 |
| ProcessManager.Manager.UnblockCall | Kernel/process/scheduler.c:175-177 | the unblock call likewise, 0 exactly when a process with that pid was blocked |
| ProcessManager.Manager.UnblockProcessQueue | Kernel/process/process.c:155-165 | a blocked process is moved to the rear of the linked ready queue, with its state |
| ProcessManager.Manager.UnblockProcessQueueBySem | Kernel/process/process.c:167-177 | a semaphore-waiting process is moved to the rear of the linked ready queue, with its state |
| ProcessManager.Manager.GetProcessByPid | Kernel/process/process.c:188-217 | the walk through current, idle and the four linked queues finds what the lookup by pid finds |
| ProcessManager.Manager.Dispatch | Kernel/process/scheduler.c:128-148 | the timer tick on fields and linked queue is the tick of the theorems |
| ProcessManager.Manager.KillByPid | Kernel/process/process.c:296-323 | the victim is moved from the first linked queue that holds it to the zombies, and the current and foreground pointers let go |
| ProcessManager.Manager.KillCall | Kernel/process/scheduler.c:183-201 | the kill call over linked queues is the kill of the theorems, and answers -1 exactly for idle, the shell and pids that nobody alive has |
| ProcessManager.Manager.WakeupWaitingParent | Kernel/process/scheduler.c:219-235 | the three cases of a child's end over linked queues |
| ProcessManager.Manager.WaitCall | Kernel/process/scheduler.c:237-273 | waitpid over linked queues, up to its return or to losing the processor |
| ProcessManager.Manager.WaitResume | Kernel/process/scheduler.c:274-287 | waitpid over linked queues after the caller runs again |
| ProcessManager.Manager.CreateCall | Kernel/process/scheduler.c:60-116 | the new process, its pid, its linked queue and the current pointer |
| ProcessManager.Manager.ChangePrioCall | Kernel/process/scheduler.c:290-305 | -1 for protected or unknown pids; otherwise the process has the answered priority, which is the asked one when that is in range |
| ProcessManager.Manager.SemWaitCall | Kernel/semaphores/semaphore.c:87-104 | a token is taken, or the caller joins the record's linked queue and the process manager's and gives up the processor |
| ProcessManager.Manager.SemPostCall | Kernel/semaphores/semaphore.c:106-119 | the first in the record's linked queue moves to the linked ready queue, or the value grows |
| BmfsDirectory.FirstFit | Bootloader/BMFS/bmfs.c:659-691 | if some gap is large enough the scan answers the lowest free place; if none is, it answers one exactly when a deleted entry leaves stale room behind |
| BmfsDirectory.CreateIsSafeExactly | Bootloader/BMFS/bmfs.c:632-706 | a creation leaves all files apart and in range if and only if there is room, or no stale room is left behind by deleted entries |
| BmfsDirectory.CreationKeepsExactly | Bootloader/BMFS/bmfs.c:693-706 | a new entry keeps the extents apart and in range if and only if its place was free, and keeps the directory terminated if and only if it is not the last slot |
| BmfsDirectory.DeletionKeeps | Bootloader/BMFS/bmfs.c:802-821 | deleting a file keeps the directory sound and frees exactly its place for reuse |
| BmfsDirectory.CreationAddsOne | Bootloader/BMFS/bmfs.c:693-706 | a creation adds one file with the name, place and number of blocks given, in a slot that held none, and every other file stays what and where it was |
| BmfsDirectory.DeletionRemovesOne | Bootloader/BMFS/bmfs.c:802-821 | a deletion takes exactly that file away |
| BmfsDirectory.FilesNeverOverlap | Bootloader/BMFS/bmfs.c:610-821 | in every run of safe creations and deletions, for every order the sort may give, files stay apart and in range |
| BmfsDirectory.FullCreationIsSafeExactly | Bootloader/BMFS/bmfs.c:632-706 | in a directory without terminator the scan answers block 1, and the creation keeps every file visible and files apart if and only if the entry reused is not the first and the blocks from 1 on are free |
| BmfsCases.DeletedEntryMisleads | Bootloader/BMFS/bmfs.c:663-685 | a run from a formatted disk, three files and a deletion, after which a request is given blocks of the second file |
| BmfsCases.LastEntryTaken | Bootloader/BMFS/bmfs.c:700-706 | a run from a formatted disk of 64 creations, after which the terminator is gone |
| BmfsCases.FullDirectoryGoesWrong | Bootloader/BMFS/bmfs.c:635-706 | from there, deleting a file and creating one puts it onto the first file, or hides every other file if it was the first |
| BmfsDirectory.CreatedFilesHaveBlocks | Bootloader/BMFS/bmfs.c:156-176 | every file made has at least one block, and the fewest blocks of two MiB that hold its size |
| BmfsDirectory.Disk.FindFile | Bootloader/BMFS/bmfs.c:205-231 | the slot of a live file with that name, or none exactly when there is none |
| BmfsDirectory.Disk.CountEntries | Bootloader/BMFS/bmfs.c:635-651 | the number of entries before the terminator and the first slot to reuse |
| BmfsDirectory.Disk.Create | Bootloader/BMFS/bmfs.c:610-719 | when it refuses and why, and otherwise the one entry it writes |
| BmfsDirectory.Disk.Delete | Bootloader/BMFS/bmfs.c:802-821 | one file of that name is marked deleted, or nothing changes |
| ModuleImages.RoundTripExactly | Kernel/moduleLoader.c:10-32 | reading the payload gives back the very modules and ends at its end, if and only if their number and sizes fit in 32 bits |
| ModuleImages.Packer.WriteFile | Toolchain/ModulePacker/main.c:111-121 | the chunked copy appends exactly the file |
| ModuleImages.Packer.WriteSize | Toolchain/ModulePacker/main.c:103-108 | four bytes are appended that mean the size modulo 2^32 |
| ModuleImages.Packer.BuildImage | Toolchain/ModulePacker/main.c:54-87 | the image is the kernel followed by the payload of the other files |
| ModuleImages.Memcpy | Kernel/lib/lib.c:16-52 | by words or by bytes, the target region becomes the source region and nothing else changes |
| ModuleImages.ReadUint32 | Kernel/moduleLoader.c:27-32 | the number whose encoding stands at the cursor, which moves four bytes |
| ModuleImages.LoadModule | Kernel/moduleLoader.c:20-25 | one module's bytes reach its target, the cursor passes it, all other memory is as it was |
| ModuleImages.LoadModules | Kernel/moduleLoader.c:10-18 | every module's exact bytes are at its target, the cursor is at the end of the payload, all other memory is as it was |
| Numerals.NumeralUnique | Userland/SampleCodeModule/stdlib.c:14-45 | the printed form is the only digit string with that value and no superfluous leading zero |
| Numerals.UintToBase | Userland/SampleCodeModule/stdlib.c:14-45 | division loop and in-place reversal leave the digits most significant first, a terminator, and the rest of the buffer as it was |
| Numerals.SignedIntToStr | Userland/SampleCodeModule/stdlib.c:58-66 | the buffer holds a sign for negative numbers and the digits |
| Numerals.IntToStr | Userland/SampleCodeModule/stdlib.c:53-56 | the buffer holds the digits of the 64-bit number an int converts to |
| Numerals.Satoi | Userland/SampleCodeModule/stdlib.c:122-142 | NULL and strings with other characters give 0, otherwise the signed value, within 64 bits |
| Numerals.UnsignedRoundTrip | Userland/SampleCodeModule/stdlib.c:14-142 | parsing the printed form gives the number back, and its arithmetic fits in 64 bits exactly for v + 48 < 2^63 |
| Numerals.SignedRoundTrip | Userland/SampleCodeModule/stdlib.c:58-142 | printing with a sign and parsing is the identity on every int above the least |
| Numerals.IntRoundTripExactly | Userland/SampleCodeModule/stdlib.c:53-142 | without the sign the parser's arithmetic fits exactly for non-negative numbers |

## Left out

General:

- Context switch frames, saved stack pointers, ports, interrupt tables and device drivers: no claim is made
  about which stack a process resumes on.
- The keyboard and timer drivers themselves: their handlers appear only as the kernel calls they make.
- Shell, command handlers, formatted printing, argument parsing and file input and output of the two tools.
- Memory exhaustion inside `wait` and `enqueue` where the callers ignore the result: those calls are modelled
  with memory available, except in `Queues` and `Semaphores.Semaphore`, which model the failure.
- Removing philosophers, the limit on their number, and failures in the middle of seating one.
- Pipe identifiers and `closePipe`: the pipe theorems are about one open slot.
- `calculateOffset`, which nothing calls.

By member:

- BuddyManager.Manager.AllocMemory: requests above 2^63 bytes, whose sum with the header could wrap, are not modelled.
- BuddyManager.Manager.FreeMemory: an address that no allocation returned but whose bytes read as an allocated header is excluded by a precondition; user programs that overwrite headers are not modelled.
- BuddyManager.BuddyReadsRight: assumes that above the base alignment no stale or user-written bytes read as a FREE header of the same level at a partner address; with an aligned base this is proved (`AlignedBaseIsQuiet`).
- BitmapManager.Manager.AllocMemory: requests of 0 bytes or of 2^32 and more are not modelled, and nothing is claimed about the end of the heap, since the block count still covers the bytes of the bitmap itself.
- BitmapManager.Manager.FreeMemory: block-aligned addresses outside the managed range would index outside the bitmap and are excluded.
- Semaphores.TokensConserved: requires value and posts to stay below 2^32; `OverflowLosesTokens` shows why.
- PipeTheorems.NextKeeps: waiters that are killed, blocked by another process, or waiting on a closed pipe are not part of a run.
- Scheduler.NextKeeps: creations that `KernelRuns.CreationKeepsExactly` shows to break the invariant are not allowed steps, and waitpid is a call of a running process other than idle.
- KernelRuns.SemaphoresAgree: is about runs of the steps that `NextKeepsSemsExactly` shows to keep the agreement; a step that breaks it is not followed further.
- KernelRuns.EveryProcessInOneQueue: an address freed with a process is not handed out again while the process lives, which is the allocator's promise.
- PhilosopherTheorems.NextKeeps: the endless loops of the program are a step system on values, so that any interleaving is a run; the array updated in place is in `Philosophers.SharedMoods`.
- SharedCounter.NextKeeps: likewise a step system on values, one step on each side of the yield; argument parsing and process creation are not modelled.
- ProcessManager.Manager.Dispatch: the stack pointer that the scheduler saves and returns is not modelled.
- ProcessManager.SwitchProcess: memory for the node is taken to be there, since one was just freed (`BuddyTheorems.FreeThenAlloc`); putting the process back into its queue when it is not is not modelled.
- PhilosopherTheorems.FixedTableProgress: is about a table that does not grow; across an addition `SeatingKeepsProgressExactly` says when it survives.
- BmfsDirectory.FirstFit: the order in which the library sort puts entries its comparison does not tell apart is a parameter; requests have at least one block, as every file made has (`CreatedFilesHaveBlocks`).
- BmfsDirectory.Disk.Create: reading and writing the disk image is not modelled, only the directory in memory.
- ModuleImages.LoadModules: targets must not overlap the payload or one another.
- Numerals.Satoi: strings whose digits exceed the signed 64-bit range, where the original overflows, are excluded by a precondition.
