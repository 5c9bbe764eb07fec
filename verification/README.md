# olliOS kernel and shell: a verified model

This project models the parts of olliOS, a 32-bit x86 kernel with a small userland, whose correctness does not show
from any single function, and proves what they are there for:

- **Heap** (`Logs`, `Heap`, `HeapGrowth`, `HeapMemory`, `HeapMerge`, `BucketAlloc`): the segregated free-list allocator.
  The abstract heap is a tiling of areas and 32 lists; the class works on the in-band headers and links in memory and is
  proved to represent the abstract heap after every call.
- **Paging** (`PageEntry`, `Physical`, `Paging`, `Mmu`, `DeepClone`, `ForkWrites`): two-level page tables edited through the self-map
  in slot 1023, over a bitmap of frames; fork's deep clone and its release. Translation is 32-bit paging, section 4.3 of
  the Intel 64 and IA-32 Architectures Software Developer's Manual, volume 3A.
- **Descriptors and pipes** (`Descriptors`, `DescriptorRuns`, `FileTables`): reference counts shared by dup, dup2 and
  fork, and the end of file of a pipe.
- **Streams** (`Streams`, `StreamRuns`, `StreamCalls`, `StreamBuffer`): the ring buffer, with every interleaving of readers, writers and
  closers at the granularity of one byte.
- **Threads** (`Threads`, `RunQueue`, `WaitingList`, `Semaphores`, `Mutexes`, `Processes`, `Timers`): run queue, waiting
  lists, locks, parent/child wait and the HPET queue, as step systems, beside the linked structures they use.
- **Hash map and linker** (`HashMap`, `Linker`, `ElfLinker`): the bucket table refines a map; relocations and the global
  offset table.
- **Path lookup and line editor** (`Paths`, `LineEditor`, `InputBuffer`): lookup over a cyclic graph; an edit buffer that
  agrees with what was echoed.

`Common` holds what several of these share.

Where the source changes state in place, the model does too: a class whose methods are proved against specification
functions, and lemmas about those functions. Concurrent code is a step system, and the theorems range over every finite
run of it.

## Assumptions

- One core: the kernel starts no other, so a region with interrupts off is one step. Joining a waiting list and then
  leaving the core counts as one step.
- The heap grows by a page run that is fresh and disjoint from its areas; `malloc` is asked for at least one byte and at
  most 2^30. A larger request always makes the heap grow by 2^31 + 4096 bytes. The page run is sought from 0xD0000000
  up, so it never fits below 2^32 and `malloc` stops there; the sizes from which growth cannot fit, and from which its
  size word would collide with the flag of used regions, are both proved exactly.
- Running out of frames is modelled as an operation that reports failure; nothing is claimed after it.
- The clone's scratch page is a local buffer, and loading `cr3` selects the directory that later accesses walk.
- The length of the frame bitmap is a parameter.
- The mutex of a stream is an ideal lock: a thread that asks for it gets it once it is free. The kernel's own mutex can
  leave a thread behind; exactly when is proved separately.
- A descriptor number is not past the end of its table, and the second number of `dup2` is not negative, since neither is
  checked.
- The memory of a deleted process and of its thread keeps what it held. What the step systems say about a state after
  the first use of a deleted process rests on this; which step is that first use does not.
- Relocation sites are words that do not overlap each other or the table.
- File names are not empty and contain no slash.
- A call into unseen code (opening a file, writing to the program) does what its caller expects and does not call back.

Where code and comments disagree the model follows the code. `freeEntry` frees every present page of an owned table,
owned or not. The stream's constructor raises a size below two only for its allocation, so such a stream never holds a
byte. `dup2` of a number onto itself leaves it holding a null pointer. The destructor of a process means to wait for
each killed child, but runs in the scheduler, where that wait returns at once: a child that has not stopped is deleted
with its thread still queued.

## Model

| member | source | states |
|---|---|---|
| Logs.LowestBracket | kernel/memory/BucketAlloc.cpp:272-275 | the lower log is the floor of the binary logarithm: 2^k <= v < 2^(k+1), for every 32-bit v |
| Logs.HighestIsCeiling | kernel/memory/BucketAlloc.cpp:261-266 | the upper log is the ceiling: v <= 2^j exactly when it is at most j |
| Logs.ClzIsLog | kernel/memory/BucketAlloc.cpp:261-275 | counting leading zeros gives 31 minus the logarithm |
| Heap.OneTryOk | kernel/memory/BucketAlloc.cpp:94-133 | one search keeps the tiling and the lists; a success turns one free region into a used one at least as large as asked and no other used region changes; a failure changes nothing and proves all buckets from the ceiling up empty |
| Heap.ReleaseOk | kernel/memory/BucketAlloc.cpp:169-184 | free keeps the invariant and changes exactly one region's flag |
| Heap.CoalesceOk | kernel/memory/BucketAlloc.cpp:190-221 | coalescing keeps the tiling and the used regions and leaves no two adjacent free regions |
| Heap.MergeOk | kernel/memory/BucketAlloc.cpp:241-259 | merge keeps the invariant, every area's bounds and its used regions, and leaves no two adjacent free regions; the lists hold exactly the free regions |
| Heap.MergeKeepsUsed | kernel/memory/BucketAlloc.cpp:190-259 | every used region keeps its address and size |
| HeapGrowth.InitKeepsInvariantIff | kernel/memory/BucketAlloc.cpp:19-40 | adding an area overwrites a bucket head; the invariant survives exactly if that bucket was empty |
| HeapGrowth.GrowthFits | kernel/memory/BucketAlloc.cpp:58-87 | the growth computed for a request lands in a bucket at or above the one the request searches from |
| HeapGrowth.GrowthExact | kernel/memory/BucketAlloc.cpp:56-69 | growth is one page for requests of at most 2048 bytes and the next power of two plus a page for all others |
| HeapGrowth.GrownTrySucceeds | kernel/memory/BucketAlloc.cpp:42-92 | after a failed search for at most 2^30 bytes the grown heap is valid, loses no live region, and the next search succeeds |
| HeapGrowth.GrowthWordIff | kernel/memory/BucketAlloc.cpp:56-72 | the region that growth makes can be told from a used one exactly for requests of at most 2^30 bytes |
| HeapGrowth.GrowthRoomIff | kernel/memory/BucketAlloc.cpp:56-72 | between 0xD0000000, where malloc looks, and the end of the address space, growth fits exactly for requests of at most 2^29 bytes |
| HeapGrowth.FirstInitAllowed | kernel/memory/BucketAlloc.cpp:19-40 | on a heap with no areas, init of any fresh run is a step the run theorems allow |
| HeapGrowth.LargeRequestGrows | kernel/memory/BucketAlloc.cpp:42-72 | above 2^30 bytes no heap serves a request without growing |
| HeapGrowth.MallocOk | kernel/memory/BucketAlloc.cpp:42-92 | malloc of at most 2^30 bytes keeps the invariant and hands out a region that was not in use, large enough, leaving all live ones |
| HeapGrowth.MallocGrowsIff | kernel/memory/BucketAlloc.cpp:42-92 | malloc adds an area exactly if neither a search nor a search after merging serves the request |
| HeapGrowth.EveryRunGood | kernel/memory/BucketAlloc.cpp:19-184 | in every run of init, malloc, realloc, free and merge from an empty heap, areas are tiled, every free region is in exactly the list of its logarithm, no used region is in a list, and live allocations are exactly the used regions |
| HeapGrowth.EveryRunLive | kernel/memory/BucketAlloc.cpp:42-184 | in every run malloc adds one block that was not held, of the size asked for, realloc exchanges one, free takes one away, and nothing else changes what is held; as many are held as were allocated and not freed |
| HeapGrowth.StepAreas | kernel/memory/BucketAlloc.cpp:19-259 | init adds exactly the area it was given and merge leaves every area without free neighbours |
| HeapGrowth.EveryRunDisjoint | kernel/memory/BucketAlloc.cpp:42-184 | in every run any two live allocations are disjoint for their whole requested size |
| BucketAllocator.BucketAlloc.MallocOneTry | kernel/memory/BucketAlloc.cpp:94-133 | the code on headers and links computes the abstract search and touches no byte of a used region |
| BucketAllocator.BucketAlloc.InsertIntoBucket | kernel/memory/BucketAlloc.cpp:135-142 | the region becomes head of the list of its logarithm, linked to the former head |
| BucketAllocator.BucketAlloc.Free | kernel/memory/BucketAlloc.cpp:169-184 | the code computes the abstract release, sparing used bytes |
| BucketAllocator.BucketAlloc.CoalesceArea | kernel/memory/BucketAlloc.cpp:190-221 | the in-place pass leaves exactly the headers of the coalesced regions |
| BucketAllocator.BucketAlloc.MergeOneArea | kernel/memory/BucketAlloc.cpp:190-239 | one area is coalesced and its free regions filed, writing only inside it |
| BucketAllocator.BucketAlloc.Merge | kernel/memory/BucketAlloc.cpp:241-259 | the loops over all areas compute the abstract merge and terminate |
| BucketAllocator.BucketAlloc.Init | kernel/memory/BucketAlloc.cpp:19-40 | the words written make the new area and its one free region |
| BucketAllocator.BucketAlloc.Malloc | kernel/memory/BucketAlloc.cpp:42-92 | malloc, with its own recursive call at depth one, computes the abstract malloc |
| BucketAllocator.BucketAlloc.Realloc | kernel/memory/BucketAlloc.cpp:144-167 | the old contents are copied up to the smaller size, and every other live byte is kept |
| PageEntry.FlagsRead | kernel/memory/virtual.cpp:112-140 | every flag and the address read from an entry's word are those it was built from |
| PageEntry.WordOperations | kernel/memory/virtual.cpp:112-140 | setting the address or a flag of the word is setting that field and no other |
| PageEntry.EncodeInjective | kernel/memory/virtual.cpp:112-140 | an entry's word determines the entry |
| Physical.PhysicalMemoryManager.AllocatePhysicalMemory | kernel/memory/physical.cpp:29-42 | allocation returns the least free frame at or above 1 MB, never one in use, and fails only if there is none |
| Physical.PhysicalMemoryManager.FreePhysicalMemory | kernel/memory/physical.cpp:56-61 | exactly that frame becomes free |
| Physical.PhysicalMemoryManager.RegisterAvailableMemory | kernel/memory/physical.cpp:13-19 | exactly the whole pages of the range become free |
| Physical.PhysicalMemoryManager.ReservePhysicalMemory | kernel/memory/physical.cpp:21-27 | exactly the pages that the length, rounded up, covers become used |
| Physical.UsedAfterSet | kernel/memory/physical.cpp:13-61 | setting or clearing a bit changes the set of used frames by that frame alone |
| Paging.TablePointerIndices | kernel/memory/virtual.cpp:402-408 | the address formed for (i, k) has directory index 1023, table index i and word k |
| Paging.SelfMapReaches | kernel/memory/virtual.cpp:402-408 | under the two-level walk those addresses reach entry k of table i, and directory entry i |
| MmuModel.BoundIsWord | kernel/memory/virtual.cpp:203-211 | setting an entry's record is setting the address and one flag after the other on its word: RW, PRESENT and OWNED, and USER exactly if asked |
| MmuModel.Mmu.AllocateEntry | kernel/memory/virtual.cpp:354-377 | an absent table gets a frame that was free, cleared, and an entry that is present, writable and owned, user exactly if asked or if the word had it, with the other bits kept; nothing else changes; a present one is left alone |
| MmuModel.Mmu.BindVirtualPage | kernel/memory/virtual.cpp:187-216 | the page is backed by a fresh cleared frame unless already mapped; its new entries have exactly the flags asked for, so user code may then use it exactly if user mode was asked for (or the absent word had the flag) and the directory entry allows it; every other page translates and is accessible as before, and frames in use but the directory and the slot's table keep their contents; failure means no frame is free |
| MmuModel.Mmu.BindFirstFreeVirtualPage | kernel/memory/virtual.cpp:245-287 | for one page and any start, aligned or not, the bound page is the first unmapped one at or above it and below the self-map, with the same entries and access, and none is bound exactly if all those are mapped |
| MmuModel.Mmu.UnbindVirtualPage | kernel/memory/virtual.cpp:289-312 | the page's word becomes zero and nothing else in memory changes; its frame becomes free exactly if the mapping owned it |
| MmuModel.Mmu.GetPhysicalAddress | kernel/memory/virtual.cpp:436-441 | agrees with the walk on every present page |
| DeepClone.Clone | kernel/memory/virtual.cpp:443-456 | the new directory maps itself, has the kernel's slots as they are, and every user slot of the original without its ownership; it fails only for want of a frame or a page |
| DeepClone.DeepClone | kernel/memory/virtual.cpp:458-518 | the loops clone every user slot into frames that were free, each used once, and leave the parent as it was; they fail only for want of a frame or a page |
| DeepClone.ForkCopies | kernel/memory/virtual.cpp:458-518 | every user page is present in both or neither, with the contents it had, in different frames, and the parent's mapping and contents are unchanged |
| DeepClone.ForkAccess | kernel/memory/virtual.cpp:458-518 | user code in the child may read exactly what it may read in the parent, and may write it exactly if the parent's directory entry is writable, also where the parent's page was not |
| DeepClone.ForkDisjoint | kernel/memory/virtual.cpp:458-518 | frames the parent reaches through user slots were in use before, frames the child reaches were not |
| DeepClone.ChildPagesDistinct | kernel/memory/virtual.cpp:458-518 | no two user pages of the child share a frame, whatever the parent shared |
| DeepClone.ChildCloneable | kernel/memory/virtual.cpp:458-518 | the child's directory meets all that binding a page and forking need, so it can be forked again |
| DeepClone.ParentCloneable | kernel/memory/virtual.cpp:458-518 | the parent's directory still does |
| DeepClone.ForkIsolates | kernel/memory/virtual.cpp:458-518 | a later write to any user page of one is invisible in the other, both ways |
| ForkWrites.WritesIsolated | kernel/memory/virtual.cpp:458-518 | for every interleaving of any number of writes by parent and child, each keeps its mapping and finds in every user page what its own writes alone would have left, if no user page of the parent is one of its own tables |
| ForkWrites.ChildTablesHidden | kernel/memory/virtual.cpp:458-518 | no user page of the child is its directory or one of its tables, so the child meets that condition whatever the parent did |
| DeepClone.KernelShared | kernel/memory/virtual.cpp:443-456 | kernel addresses translate alike in parent and child |
| DeepClone.FreeEntry | kernel/memory/virtual.cpp:379-400 | an owned table's frame and all its present pages become free, and the slot is cleared |
| DeepClone.FreePageDirectory | kernel/memory/virtual.cpp:530-548 | exactly the directory's frame and the frames of its owned user slots become free |
| DeepClone.CloneThenFree | kernel/memory/virtual.cpp:443-548 | what freeing a clone releases is exactly what making it took |
| DeepClone.ForkThenFree | kernel/memory/virtual.cpp:443-548 | a deep clone followed by freeing the result restores the set of used frames, and fails only for want of a frame or a page |
| Descriptors.GrabCounted | kernel/kstd/shared_ptr.h:34-41 | copying a pointer keeps counts equal to references |
| Descriptors.ResetCounted | kernel/kstd/shared_ptr.h:54-65 | dropping a pointer keeps counts equal to references and closes the handle exactly with the last |
| Descriptors.OpenValid | kernel/process.cpp:231-254 | open keeps the invariant, also when the table is full |
| Descriptors.CloseValid | kernel/process.cpp:256-266 | close keeps it, for any number |
| Descriptors.PipeValid | kernel/process.cpp:492-518 | pipe keeps it, also when only one entry is left |
| Descriptors.DupValid | kernel/process.cpp:520-536 | dup keeps it |
| Descriptors.Dup2Valid | kernel/process.cpp:538-554 | dup2 keeps it, also for a first number that is negative or free and for two equal ones; the second number must not be negative |
| Descriptors.ForkValid | kernel/process.cpp:303-323 | fork's copy keeps it and gives the child the parent's table |
| Descriptors.DestroyValid | kernel/resource_map.h:123-131 | destroying a table keeps it and empties that table only |
| DescriptorRuns.EveryRunCounts | kernel/process.cpp:231-554 | in every run, a descriptor's count is the number of slots holding it over all processes, its handle was closed once if that is none and never otherwise, a pipe is marked closed exactly when no slot holds its write end, and its stream is deleted once, exactly when no slot holds either end |
| DescriptorRuns.ClosedForever | kernel/kstd/shared_ptr.h:34-108 | a handle is closed by exactly the step after which no slot holds it, and no later run brings it back |
| DescriptorRuns.DupThenClose | kernel/process.cpp:520-536 | closing what dup returned restores the whole state |
| DescriptorRuns.ForkThenDestroy | kernel/process.cpp:303-323 | destroying the child right after fork restores every count, mark and table |
| DescriptorRuns.OpenRefers | kernel/process.cpp:231-254 | open gives the lowest unused number a new descriptor of the file and fails, changing nothing, exactly if the table is full |
| DescriptorRuns.CloseFrees | kernel/process.cpp:256-266 | close frees exactly that number and fails exactly for one that is unused |
| DescriptorRuns.PipeRefers | kernel/process.cpp:492-518 | pipe gives the two lowest unused numbers the two ends of one new open stream, or changes nothing when two cannot be had |
| DescriptorRuns.DupRefers | kernel/process.cpp:520-536 | dup gives the lowest unused number the same descriptor and fails exactly for an unused number or a full table |
| DescriptorRuns.Dup2Refers | kernel/process.cpp:538-554 | the second number refers to the first one's descriptor exactly if the two differ; all other entries stay |
| DescriptorRuns.Dup2Answers | kernel/process.cpp:538-554 | dup2 answers with the second number, or with -1 and no change exactly if the first refers to nothing |
| FileTables.Kernel.NewResource | kernel/resource_map.h:81-91 | the scan takes the first unused entry or reports a full table |
| FileTables.Kernel.FreeResource | kernel/resource_map.h:103-111 | frees the entry and drops its pointer |
| FileTables.Kernel.DestroyHandle | kernel/filesystem/stream.cpp:133-142 | a write end marks its stream closed, and either end lets go of it |
| FileTables.Kernel.OpenFile | kernel/process.cpp:231-254 | the code computes open |
| FileTables.Kernel.CloseFile | kernel/process.cpp:256-266 | the code computes close |
| FileTables.Kernel.MakePipe | kernel/process.cpp:492-518 | the code, with its local pointer to the stream and its way back when the second entry fails, computes pipe |
| FileTables.Kernel.DupFile | kernel/process.cpp:520-536 | the code computes dup |
| FileTables.Kernel.Dup2File | kernel/process.cpp:538-554 | the code computes dup2 |
| FileTables.Kernel.FinishFork | kernel/resource_map.h:32-49 | the copying loop computes fork's table and counts |
| FileTables.Kernel.DestroyTable | kernel/resource_map.h:123-131 | the releasing loop computes destruction |
| Streams.RingBounds | kernel/filesystem/stream.cpp:20-23 | at most size - 1 bytes are held, full exactly then, for every size |
| Streams.PushHeld | kernel/filesystem/stream.cpp:41-43 | a byte written joins the end of what is held |
| Streams.PopHeld | kernel/filesystem/stream.cpp:83-86 | a byte read is the first of what is held |
| StreamRuns.StepValid | kernel/filesystem/stream.cpp:9-142 | every step of a writer, reader or closer keeps the whole invariant |
| StreamRuns.ReachableInRange | kernel/filesystem/stream.cpp:9-94 | in every run the ring's indices stay inside its buffer, so the runs' guard that they do excludes nothing |
| StreamRuns.EveryRunConserves | kernel/filesystem/stream.cpp:9-94 | over every interleaving, bytes accepted are bytes delivered followed by bytes held, in order, and at most size - 1 are held |
| StreamRuns.EveryRunContiguous | kernel/filesystem/stream.cpp:9-94 | every finished call's bytes are one contiguous piece of the stream, and a blocked call has moved nothing |
| StreamRuns.NoLostWakeup | kernel/filesystem/stream.cpp:24-49 | when every thread is idle or blocked, a blocked reader faces an empty open stream, a blocked writer a full one, and the mutex is free |
| StreamCalls.EveryCallAsked | kernel/filesystem/stream.cpp:9-94 | over every interleaving a finished write put in a prefix of the buffer its thread passed in that call, a finished read took at most what it asked for, and each moved all of it unless at some moment of the call the ring was full, or empty, before its next byte |
| StreamCalls.EveryCallReported | kernel/filesystem/stream.cpp:9-142 | each call but a close that a thread finished is reported exactly once, and one that was waiting, or had just been woken, when the stream was closed moved nothing |
| StreamCalls.ClosedIff | kernel/filesystem/stream.cpp:133-142 | in every run the stream is closed exactly if some thread asked for a close that has taken the mutex |
| StreamCalls.CloseFreesReaders | kernel/filesystem/stream.cpp:55-142 | once a close has finished, a state in which nobody can step has no blocked reader |
| StreamCalls.NoDeadlock | kernel/filesystem/stream.cpp:9-142 | in every run some thread can step unless all are between calls or blocked |
| StreamCalls.ServedInOrder | kernel/filesystem/stream.cpp:9-142 | each side's waiting list only loses its head or gains the one who blocks, so who waited longest is woken first |
| StreamCalls.StepChanges | kernel/filesystem/stream.cpp:9-142 | no step leaves everything as it was |
| StreamBuffers.StreamBuffer.constructor | kernel/filesystem/stream.cpp:187-196 | a new stream of any size is empty and open |
| StreamBuffers.StreamBuffer.WriteBytes | kernel/filesystem/stream.cpp:15-47 | the write loop blocks exactly if it has something to write and there is no room, and otherwise puts in as much as fits |
| StreamBuffers.StreamBuffer.ReadBytes | kernel/filesystem/stream.cpp:58-91 | the read loop blocks exactly if it wants something and the stream is empty and open, and otherwise takes as much as is there |
| Threads.StepValid | kernel/threading/scheduler.cpp:13-75 | spawning, entering, yielding, blocking, sleeping, exiting, being reaped, being destroyed anywhere, firing and unblocking keep the invariant |
| Threads.NothingSkipped | kernel/threading/waiting_list.cpp:36-60 | the loop that skips threads with a clear flag never finds one |
| Threads.UnblockNextMoves | kernel/threading/waiting_list.cpp:36-60 | the head of that list moves to the end of the run queue, and no other thread moves |
| Threads.BlockJoins | kernel/threading/waiting_list.cpp:17-34 | the running thread leaves the core for the end of that list |
| Threads.YieldSleepJoin | kernel/threading/scheduler.cpp:39-75 | yielding goes to the end of the run queue, sleeping to the timers, and a timer that fires to the end of the run queue |
| Threads.SpawnReapJoin | kernel/threading/scheduler.cpp:13-37 | a new thread, and that of a reaped process, join the end of the run queue |
| Threads.ExitLeaves | kernel/threading/scheduler.cpp:57-72 | exiting takes the running thread off the core and out of every queue, finished |
| Threads.StillWaits | kernel/threading/waiting_list.cpp:17-60 | in every run until list l is cleared, the thread at position k of it is at position k - j after j unblocks of one thread, whatever else happens |
| Threads.WakeAllOrder | kernel/threading/waiting_list.cpp:63-87 | unblocking all moves the whole list to the end of the run queue, in order |
| Threads.EveryThreadOnePlace | kernel/threading/scheduler.cpp:13-75 | in every run a thread is in exactly one of the core, the run queue, one waiting list and the timer queue, once, unless it finished with its process stopped or is gone; its flag is set exactly in the last two, and outside a waiting list its link is null |
| Threads.Dispatched | kernel/threading/scheduler.cpp:39-75 | a thread at position k of the run queue is dispatched by exactly the (k+1)-th successful enter, whatever else happens: it runs unless it was finished or destroyed on the way, and then is gone with its process if reaped and stops if not |
| Threads.StillQueued | kernel/threading/scheduler.cpp:39-75 | after any number j <= k of enters it is still in the queue, at position k - j |
| Threads.DeletedFoundIff | kernel/process.cpp:105-121 | as long as no deleted thread was entered, a deleted thread is found in the run queue, a waiting list or the timer queue exactly if some destructor met a thread that had not stopped |
| RunQueue.LinkedList.Push | kernel/kstd/linkedlist.h:58-70 | the circular list gains the value at its end |
| RunQueue.LinkedList.Pop | kernel/kstd/linkedlist.h:26-43 | the first value is taken off |
| WaitingLists.WaitingList.AddBlockedThread | kernel/threading/waiting_list.cpp:17-34 | the thread joins the end of the line with its flag set |
| WaitingLists.WaitingList.UnblockNextThread | kernel/threading/waiting_list.cpp:36-60 | the first thread whose flag was set leaves the line with a clear flag and a null link; nobody else's changes |
| WaitingLists.WaitingList.UnblockAllThreads | kernel/threading/waiting_list.cpp:63-87 | all leave in order with clear flags and null links |
| Semaphores.StepValid | kernel/threading/semaphore.cpp:11-60 | every step keeps the count and wakeup invariant |
| Semaphores.EveryRunCounts | kernel/threading/semaphore.cpp:11-60 | in every run where only holders release, count plus units held is the initial count, and either nobody waits or the count is at most the number of woken threads yet to retry |
| Semaphores.NobodyStranded | kernel/threading/semaphore.cpp:53-60 | when nobody is retrying, a thread waits only if no unit is left |
| Semaphores.EveryRunHolds | kernel/threading/semaphore.cpp:11-60 | in every run a thread holds one unit for each lock that returned and each try_lock that met a positive count, less one for each release |
| Semaphores.FirstWoken | kernel/threading/semaphore.cpp:11-60 | a lock returns exactly from a test of a positive count, a failed try_lock changes nothing, and a release wakes the one that waited longest |
| Mutexes.EveryRunExclusive | kernel/threading/mutex.cpp:11-44 | no run gives the mutex to two threads |
| Mutexes.WhoGetsIt | kernel/threading/mutex.cpp:11-44 | an exchange or try_lock gets the mutex exactly if it was free, a failed try_lock changes nothing, and the wakeup after a release goes to the head of the line |
| Mutexes.StrandedIffRaced | kernel/threading/mutex.cpp:11-44 | in every run that ends with all threads outside or waiting, a waiter is left behind a free mutex exactly if a release found nobody in line while a thread was between its failed exchange and joining, and nobody took the mutex since |
| Mutexes.RaceStrands | kernel/threading/mutex.cpp:17-25 | that race is possible: a run of two threads that ends so |
| Processes.EveryRunReaps | kernel/process.cpp:402-439 | in every run every process not yet reaped is in its parent's list, a parent blocked in wait has no stopped child it was not told about, and every return names a different child of the caller with what that child passed to exit |
| Processes.EveryReturnExits | kernel/process.cpp:402-439 | in every run a process exits at most once, and every return from wait gives exactly what that child passed to its exit |
| Processes.ForkAdds | kernel/process.cpp:303-323 | fork adds one running child of the caller to the caller's list and to the end of the run queue, and changes no other process |
| Processes.EveryRunQueuesOnce | kernel/threading/scheduler.cpp:39-75 | in every run a stopped process's thread is not in the run queue, a reaped one's is in it exactly once until it is deleted and never after, and no process is deleted twice |
| Processes.EveryStepOnward | kernel/threading/scheduler.cpp:57-72 | every step takes every process onward: no stage is skipped or taken back, parents stay, the status stays once stopped or deleted; and a step uses a deleted process, and changes one, exactly if it pops one off the run queue |
| Processes.PopStopsDeleted | kernel/threading/scheduler.cpp:57-72 | such a step sets the deleted process to stopped |
| Processes.DeletedStillQueued | kernel/process.cpp:105-121 | a run that gets there: fork, fork again in the child, exit, be reaped; the grandchild is deleted and is next in the run queue |
| Processes.DeletedQueuedIff | kernel/process.cpp:175-189 | as long as no deleted process was popped, with no destructor running, a deleted process is in the run queue exactly if some destructor met a child that had not stopped |
| Processes.SafeUnlessTooSoon | kernel/process.cpp:105-121 | if every child had stopped by the time it was deleted, no step of the run uses a deleted process |
| Processes.StepValid | kernel/process.cpp:105-439 | dispatch, leaving the core, fork, exit, wait and deletion, of a child in any state, keep the family, the run queue, the returns and the codes consistent |
| Processes.StepFrame | kernel/process.cpp:105-439 | a step leaves alone every process it does not touch |
| Processes.ProcessTable.WaitRound | kernel/process.cpp:402-439 | one round of the loop tells the caller of the first stopped child, or returns -1 with the lock held if there are no children, or blocks; the invariant is kept |
| Timers.DeadlineWindow | kernel/cpu/hpet.cpp:113-121 | a request of us microseconds at counter c has its deadline in (c+(us-1)f, c+us*f] exactly if the deadline fits in 64 bits |
| Timers.InsertValid | kernel/cpu/hpet.cpp:118-162 | a request keeps the queue sorted and the comparator at the head, and adds exactly itself |
| Timers.ProcessExact | kernel/cpu/hpet.cpp:88-111 | exactly the due callbacks fire, in order of deadline, and the comparator is armed for the first that did not |
| Timers.EveryRunFires | kernel/cpu/hpet.cpp:88-162 | over every interleaving of requests and handler steps, callbacks' own requests included, the queue is sorted, the comparator is at its head outside the handler, and every request is queued or has fired, once, none before its deadline |
| Timers.EveryRequestFires | kernel/cpu/hpet.cpp:88-162 | over every interleaving what the acts asked for is queued or has fired, once each, and each fired at a counter value, read when the handler last began, not before its deadline |
| Timers.InterruptProcesses | kernel/cpu/hpet.cpp:88-111 | an interrupt with no request in between is one processing of the queue, and the handler ends |
| Timers.FiresLeast | kernel/cpu/hpet.cpp:88-111 | whatever is requested meanwhile, what fires has the least deadline queued, and none due is left when the handler ends |
| Timers.QuietProcess | kernel/cpu/hpet.cpp:88-111 | with no request in between, the handler's steps are one processing of the queue |
| Timers.Hpet.WaitFor | kernel/cpu/hpet.cpp:118-162 | the splicing of the linked queue computes the insertion |
| Timers.Hpet.ProcessDue | kernel/cpu/hpet.cpp:88-111 | the loop on the linked queue, when callbacks request nothing, fires the due callbacks in order |
| HashMap.AppendAgrees | kernel/kstd/unordered_map.h:76-83 | an appended entry keeps the table in agreement with the map |
| HashMap.RemoveAgrees | kernel/kstd/unordered_map.h:86-108 | so does a removed one |
| HashMap.DoubleMod | kernel/kstd/unordered_map.h:183-220 | (h mod 2n) mod n is h mod n |
| HashMap.MoveOne | kernel/kstd/unordered_map.h:183-220 | re-inserting an entry during growth always finds room |
| HashMap.UnorderedMap.Index | kernel/kstd/unordered_map.h:57-84 | indexing creates a default value for a missing key and nothing else, and calls itself at most once |
| HashMap.UnorderedMap.Erase | kernel/kstd/unordered_map.h:86-108 | erasing removes exactly the key and reports whether it was there |
| HashMap.UnorderedMap.Count | kernel/kstd/unordered_map.h:111-124 | one exactly for the keys of the map |
| HashMap.UnorderedMap.Put | kernel/kstd/unordered_map.h:163-179 | adds a new entry to its bucket, and grows the table, once, exactly if that bucket is full |
| HashMap.UnorderedMap.IncreaseSize | kernel/kstd/unordered_map.h:183-220 | growth keeps the map, never nests, and leaves every bucket with room |
| HashMap.UnorderedMap.CopyFrom | kernel/kstd/unordered_map.h:222-240 | a copy holds the same map, unless a map is copied onto itself, which empties it |
| HashMap.UnorderedMap.Assign | kernel/kstd/unordered_map.h:29-35 | after an assignment the map is the other's exactly if the two are different objects or it was empty |
| Linker.SlotKeeps | kernel/elf/elf.cpp:128-140 | finding or making a slot keeps slots and names in one-to-one correspondence and rewrites no slot |
| Linker.RelocateOne | kernel/elf/elf.cpp:87-151 | one relocation patches its own word as its type says, modulo 2^32, and no other word |
| Linker.RelocateFailsIff | kernel/elf/elf.cpp:87-151 | a relocation fails exactly if it needs a symbol and that is undefined and unknown to the kernel, or of no section, or its type is not handled, or it is a GOT32 with the table full |
| Linker.SectionWord | kernel/elf/elf.cpp:60-119 | against a symbol of a section the word becomes itself plus the file's base plus the section's offset plus the symbol's value, less the site or the table for the relative types |
| Linker.KernelWord | kernel/elf/elf.cpp:60-119 | against an undefined symbol it becomes itself plus what the kernel has under the name, and fails exactly if that is nothing |
| Linker.SlotAddress | kernel/elf/elf.cpp:122-140 | a new slot of the table holds the symbol's address, and the word the slot's offset |
| Linker.SectionMoves | kernel/elf/elf.cpp:60-166 | moving one section by d changes neither success nor slots, and exactly the words for that section's symbols, by d |
| Linker.SectionRelocated | kernel/elf/elf.cpp:153-166 | after a section, every site holds what its relocation calls for, computed from the word that was there, and the table is in order |
| Linker.RelocateConcat | kernel/elf/elf.cpp:203-226 | relocating a section and then others over the same table is relocating all their entries in order, so earlier sections' sites stay right |
| Linker.OffsetReaches | kernel/elf/elf.cpp:98-119 | a GOTPC word of any addend, added to the address that far before it, plus GOTOFF reaches what a direct R_386_32 holds |
| Linker.TableLoad | kernel/elf/elf.cpp:122-140 | a GOT32 load, for any addend, reads the slot of its symbol's name, which holds the value of the symbol the slot was made for |
| Linker.LoadsFindIff | kernel/elf/elf.cpp:122-166 | from an empty table, every GOT32 load finds its own symbol's value exactly if any two GOT32 relocations of one name are of symbols with one value |
| Linker.TableReaches | kernel/elf/elf.cpp:107-140 | such a load plus an addend gives what a direct R_386_32 with that addend holds |
| Linker.NameClash | kernel/elf/elf.cpp:122-140 | two local symbols of one name with different values: the second's load finds the first's value |
| ElfLinker.Elf.RelocateEntry | kernel/elf/elf.cpp:87-151 | the code, with the hash map as index, computes the relocation, and changes nothing when it fails |
| ElfLinker.Elf.RelocateSection | kernel/elf/elf.cpp:153-166 | the loop relocates in order and fails exactly if an entry does |
| ElfLinker.Elf.LinkModule | kernel/elf/elf.cpp:203-226 | the loop over sections relocates all entries of all of them over one table and fails exactly if one does |
| LineEditor.BackspaceUndoes | apps/init/inputbuffer.c:35-92 | backspace undoes typing, and so do left and delete |
| LineEditor.TypingShowsIff | modules/vga/txt_mode.cpp:178-209 | at any cursor position, typing a character keeps the terminal in step exactly if it is printable |
| LineEditor.EveryRunShows | apps/init/inputbuffer.c:154-218 | for every sequence of events that type only printable characters, the terminal fed with all the output shows the line followed by blanks, with the cursor in place |
| LineEditor.EventKeeps | apps/init/inputbuffer.c:35-218 | each event's output keeps that, and echoes no backspace where the line starts |
| LineEditor.EveryRunSends | apps/init/inputbuffer.c:95-116 | in every run what the program was sent is the history, line by line |
| LineEditor.UpWalks | apps/init/inputbuffer.c:194-211 | n presses of Up bring back the n-th newest line, and one too many an empty one |
| LineEditor.DownWalks | apps/init/inputbuffer.c:205-212 | Down shows the next newer entry, after the newest an empty line, and from no selection the newest |
| LineEditor.UpDownWalks | apps/init/inputbuffer.c:197-212 | n presses of Up and then m of Down show the (n-m)-th newest line, and for m = n an empty one |
| LineEditor.DownUndoesUp | apps/init/inputbuffer.c:197-212 | inside the history Down undoes Up and Up undoes Down |
| LineEditor.CursorMoves | apps/init/inputbuffer.c:161-188 | Home and End go to the ends, Left and Right one place and undo each other, with the text kept |
| LineEditor.TypedLine | apps/init/inputbuffer.c:35-116 | typing a string puts it in front of the cursor, and Enter sends exactly the line then shown and logs it as newest |
| LineEditor.EchoControls | modules/vga/txt_mode.cpp:178-209 | a tab fills with blanks up to the next multiple of four, and the other controls only move the cursor |
| InputBuffers.InputBuffer.AddChar | apps/init/inputbuffer.c:35-58 | any character but the terminator is inserted at the cursor, the buffer grows when needed, and the output is the one specified |
| InputBuffers.InputBuffer.HandleBackspace | apps/init/inputbuffer.c:61-76 | the character before the cursor goes, with the output specified |
| InputBuffers.InputBuffer.HandleDelete | apps/init/inputbuffer.c:79-92 | the character under the cursor goes, with the output specified |
| InputBuffers.InputBuffer.CommitInput | apps/init/inputbuffer.c:95-116 | the line and a newline are sent, the line joins the history, and an empty line is left |
| InputBuffers.InputBuffer.SwitchToEntry | apps/init/inputbuffer.c:131-151 | the line is wiped and replaced by the entry, which fits |
| InputBuffers.InputBuffer.ProcessEvent | apps/init/inputbuffer.c:154-218 | every event does to the line what it means and echoes exactly the output specified; the buffer stays terminated in bounds and every history entry fits |
| InputBuffers.InputBuffer.ProcessAll | apps/init/inputbuffer.c:154-218 | so for every sequence of events, tabs and newlines included; if all typed characters are printable the terminal shows the line |
| Paths.LookupJoin | kernel/filesystem/file.cpp:20-62 | looking up p/q is looking up /q from where p leads, for non-empty p |
| Paths.LookupJoinIff | kernel/filesystem/file.cpp:20-62 | and only then: the empty path names nothing |
| Paths.LookupName | kernel/filesystem/file.cpp:20-62 | a single name finds a file exactly if that is the first child of the name, and nothing exactly if there is no folder or no such child |
| Paths.OneName | kernel/filesystem/file.cpp:20-62 | a path without a slash is one name |
| Paths.LookupSlashes | kernel/filesystem/file.cpp:20-32 | a path of slashes only leads where it starts |
| Paths.Get | kernel/filesystem/file.cpp:20-62 | lookup of a path is following the first child of each name in turn, and ends on any cyclic graph |
| Paths.GetFrom | kernel/filesystem/file.cpp:64-71 | an absolute path starts at the root |

## Left out

- apps/zork, ISO9660, ATA, PCI, the interrupt and keyboard controllers: hardware plumbing and a bundled game.
- Context switching, stack building, TLB invalidation, sysenter set-up and `initializePaging`.
- Several cores: the wait paths are not atomic across cores, and only one is started.
- Fairness and progress of the step systems: the theorems are about every reachable state, not about when it is reached.
- `bindFirstFreeVirtualPages` for more than one page and its scan of the self-map's own pages, `mapMemory`, and the overloads of `unbindVirtualPage` and `freePhysicalMemory` that take a length.
- BucketAllocator.BucketAlloc.Malloc: the page run it grows by is a parameter, assumed fresh.
- What memory holds after an operation that ran out of frames, where the kernel panics.
- DeepClone.FreePageDirectory: asks for the kernel's directory among the first 1024 frames and mapped there, as the boot code arranges.
- Descriptor offsets, reading and writing through descriptors, weak pointers, and working directories.
- StreamHandle::get_size, and what a read that returns zero says about the ring after the writer closed.
- The overload of `Process::wait` that waits for one process, execve and signals.
- The write near address zero when a destructor puts the null thread on the list of a child it is about to delete.
- Hash map object lifetimes and the doubling of sizes past 2^32.
- Timers.Hpet.ProcessDue: callbacks that request timers are covered by the step system and not by this method; a timer interrupt inside the handler is not modelled.
- Section and program headers, `allocate_nobits`, `link_in_userspace` and symbol lookup by name in the linker; a symbol's value is computed as the source does.
- The translation of key codes to characters, and short writes of a committed line.
- The history is a sequence rather than a linked list, and the terminal is one unbounded line that starts where editing does.
- Creating and binding files; a link's children are those of its target when it is opened.
- LinearAlloc, `calloc`, statistics, strings, the kernel shell and libc wrappers: easy members or unused ones.
