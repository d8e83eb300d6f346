# Pico-os, modelled and proved

Pico-os is a small single-core kernel with its own runtime library. This project models the
parts of it whose correctness rests on invariants that the code never states:

- **the heap allocator**: a first-fit, address-ordered free list kept inside the heap. The
  word array and its in-band headers are proved to follow a sequence of chunks, and that
  sequence is proved to stay well formed over every run;
- **threads, scheduler, mutexes and system calls**: one state machine whose steps are the
  handlers and the guarded sections, and a class that performs the steps with the source's
  own reference counting. One invariant holds whatever the threads do; a second one holds
  exactly as long as no special thread that is parked on a mutex gets the processor back, and
  with it mutual exclusion;
- **the ordered set and the hash map on top of it**: a pointer tree with parent pointers,
  proved to be a strictly increasing sequence, and then a finite map, for every order and
  every hash function;
- **the page allocator**, **the circular queue**, **memmove on word memory**, **paths**,
  **file lookup and creation**, and **the flash image** from the host tool to the kernel.

Functions and lemmas carry the algorithms and the properties. Code that updates objects or
arrays in place is a class or a method, proved against those functions. A failing `ASSERT` or
`VERIFY` is a proof obligation or, where it can fail, a stated condition.

## Where the code does not do what it says

- `m_masked_from_scheduler` is shared by all kinds of parking. A system call therefore wakes
  the SystemHandler thread out of a mutex it waits for. `unlock` puts the default thread into
  the run queue; `choose_default_thread` can choose it before that entry is reached, and later
  `schedule` takes the entry (`Kernel/Threads/Scheduler.cpp:84`) although the default thread may
  be waiting for the next mutex. `KernelLocking.OrderlyExactly`: a step keeps places, masks and
  lock ownership if and only if it does neither.
- Mutual exclusion fails in exactly these two ways. `KernelLocking.ExclusionExactly`: from an
  orderly state, only the holder of a mutex is past `lock` after a step, if and only if the step
  is no system call made while the SystemHandler thread waits for a mutex it does not hold, and
  does not take the default thread from the head of the run queue while that one does. Both can
  be read off the state before the step. `KernelTheorems.ExclusiveRuns` says the same of whole
  runs. `KernelExamples.ExclusionCanFail` and `KernelExamples.DefaultCanFail` are runs to a step
  of either kind, after which two threads are past the same `lock`. No call is lost in any of
  this: `KernelTheorems.NoCallIsLost` needs no hypothesis.
- `GlobalMemoryAllocator::reallocate` locks `malloc_mutex` and calls the base class, whose
  `allocate` is virtual and locks it again when the block has to grow
  (`Std/MemoryAllocator.cpp:129`). `KernelLocking.LockTwice` and
  `KernelTheorems.SelfLockIsForever`: a thread that does this waits for itself, and never runs
  again as long as the steps are proper.
- A node promoted to the root keeps its `m_parent` (`Std/SortedSet.hpp:332` and `:339`).
  `SortedSet.SortedSet.Remove` states exactly when the root's parent pointer leads to a deleted
  node, `SortedSet.PromotionOrphans` produces it, and an iterator steps correctly from every
  element but the last in that case too.
- `CircularQueue` index expressions overflow for more than 2^31 elements;
  `CircularQueue.PositionIsExact` gives the exact condition.
- The fit test of `allocate` wraps for requests within 8 bytes of 2^32;
  `MemoryAllocator.GuardIsExact` gives the exact condition, and `MemoryAllocator.WrapBreaks` a
  request after which the memory represents no heap.
- `sys$open` stops the kernel on an empty path name, on `O_TRUNC` for a device and on `O_TRUNC`
  for a file in flash. `FileSystem.OpenChecksExact` says that these are all such inputs, and
  `EmptyNameFails`, `TruncatingDeviceFails` and `TruncatingFlashFails` name one of each kind.
  `sys$posix_spawn` stops it on everything but three paths, compared as texts, so another name
  of the same file will not do (`FileSystem.SpawnByAnotherNameFails`).
- `Kernel/Threads/Scheduler.cpp:141` verifies that nobody holds `dbgln_mutex`, and its comment
  asks whether that can happen. It cannot: no code locks that mutex, so that `KernelRuns.LogIsFree`
  holds in every state a run reaches.
- A printed path parses back to itself exactly under `Paths.Plain`, which excludes, among
  others, an empty last component.

## Files

| files | what they hold |
|---|---|
| HeapLayout, MemoryAllocator | chunks and runs; the word array and the class |
| KernelState | threads, queues, mutexes, the steps and their checks |
| KernelInvariant, KernelSteps, KernelScheduling, KernelPrograms, KernelRuns | the unconditional invariant and its preservation by every step |
| KernelLocking, KernelCapacity | the invariant under the hypothesis on parked threads, and exclusion; room in the queues |
| KernelTheorems, KernelReturns, KernelCalls, KernelExamples | what follows for every run; contexts and results; which calls return; the two runs named above |
| Kernel | the class with reference counts |
| SortedTree, SortedSet, HashMap | sequences and trees; the pointer structure and iterator; hash table and map |
| PageLayout, PageAllocator | free lists and runs; the lists threaded through memory |
| CircularQueue, MemoryMove, Path, FileSystem | one component each |
| FlashImage, FlashBuilder | relocation and reader; the tool |

In KernelState a thread that parks inside a guard leaves the processor in the same step,
because PendSV is pending when the guard re-enables interrupts. Any thread of a process may
die there, although in the source only the startup thread and the workers return, and any
thread may lock malloc_mutex and page_allocator_mutex at any time. The two runs of
KernelExamples keep to what the source's threads do: a new process allocates before it makes
a call, memory is allocated for a worker, and destroying a thread releases pages first and
memory afterwards. A mutex that is taken and released within one turn is shown once for a turn.

## Model

| member | source | states |
|---|---|---|
| HeapLayout.RunKeepsWellFormed | Std/MemoryAllocator.cpp:21-110 | after any run of allocations and valid releases the chunks tile the heap, no two free chunks touch and the last chunk is free |
| HeapLayout.AllocTakesFirst | Std/MemoryAllocator.cpp:27-50 | an allocation fails if and only if every free chunk is shorter than the block and two words; otherwise it splits the lowest free chunk that is not |
| HeapLayout.AllocKeepsWellFormed | Std/MemoryAllocator.cpp:27-50 | splitting the first chunk that fits keeps the layout well formed |
| HeapLayout.FreeKeepsWellFormed | Std/MemoryAllocator.cpp:73-107 | releasing a live chunk, with merges on either side, keeps the layout well formed |
| HeapLayout.FreeShape | Std/MemoryAllocator.cpp:77-101 | a release replaces the chunk and its free neighbours by one free chunk that spans them and moves nothing else |
| HeapLayout.FreeUndoesAlloc | Std/MemoryAllocator.cpp:21-110 | releasing what was just allocated gives the layout back |
| HeapLayout.AllocAddsOne | Std/MemoryAllocator.cpp:27-50 | exactly one block becomes live and the others stay where they are |
| HeapLayout.FreeReleasesOne | Std/MemoryAllocator.cpp:59-110 | exactly the released block stops being live |
| HeapLayout.FreeKeepsOthers | Std/MemoryAllocator.cpp:59-110 | every other block stays as it is, address and length |
| HeapLayout.FreeAllRestores | Std/MemoryAllocator.cpp:59-110 | releasing all live blocks, in any order, leaves one free chunk of the original size |
| HeapLayout.Conservation | Std/MemoryAllocator.hpp:35-50 | free words, live words and one header for each chunk make up the heap |
| MemoryAllocator.RoundToWord | Std/MemoryAllocator.cpp:6-11 | the least multiple of four at or above the size |
| MemoryAllocator.GuardIsExact | Std/MemoryAllocator.cpp:29 | the fit test modulo 2^32 decides that request and header fit if and only if the sum does not wrap or the chunk is shorter than what is left of it |
| MemoryAllocator.WrapBreaks | Std/MemoryAllocator.cpp:29-41 | a request of 2^32 - 8 bytes passes the test on any chunk, the rest of the split is the chunk itself, and the stores leave memory that represents no heap |
| MemoryAllocator.AllocInBand | Std/MemoryAllocator.cpp:31-41 | any memory that differs in the four stores of a split represents the split layout: sizes, links in address order, and list head |
| MemoryAllocator.AllocStores | Std/MemoryAllocator.cpp:31-41 | the stores in program order are such a change, and no live payload is written |
| MemoryAllocator.FreeInBand | Std/MemoryAllocator.cpp:77-101 | any memory that differs in the stores of a release represents the merged layout |
| MemoryAllocator.FreeStores | Std/MemoryAllocator.cpp:77-101 | the stores of all four merge cases, in program order, do that, and no live payload is written |
| MemoryAllocator.FreeLeft | Std/MemoryAllocator.cpp:78 | the address comparison with the previous entry decides whether the chunk in front is free |
| MemoryAllocator.FreeRight | Std/MemoryAllocator.cpp:82-96 | the address comparison with the next entry decides whether the chunk behind is free |
| MemoryAllocator.LiveSurvive | Std/MemoryAllocator.cpp:59-110 | the blocks that are live after a release are those that were live before, less the released one |
| MemoryAllocator.PayloadIs | Std/MemoryAllocator.hpp:55-60 | the contents of a block, which the rows on either side keep, are the words from the second behind its start on |
| MemoryAllocator.ReallocatePayloads | Std/MemoryAllocator.cpp:129-131 | over allocate, copy and release the new block begins with the old contents and every other block keeps its own |
| MemoryAllocator.Allocator.constructor | Std/MemoryAllocator.cpp:13-19 | the heap is one free chunk |
| MemoryAllocator.Allocator.Split | Std/MemoryAllocator.cpp:31-41 | the chunk found is split and every payload kept; the subtraction at line 33 does not underflow |
| MemoryAllocator.Allocator.Allocate | Std/MemoryAllocator.cpp:21-57 | it fails, changing nothing, if and only if every free chunk has fewer than size + 8 bytes; otherwise it splits the first one that has, and returns the aligned address behind its header; the block has the least whole words that hold the request |
| MemoryAllocator.Allocator.JoinPrevious | Std/MemoryAllocator.cpp:78-88 | the chunk in front grows by the released one, and by the one behind if it is next to it |
| MemoryAllocator.Allocator.Insert | Std/MemoryAllocator.cpp:75-104 | the released chunk is merged into the list and every payload kept |
| MemoryAllocator.Allocator.Deallocate | Std/MemoryAllocator.cpp:59-110 | a live block is released, null is ignored, and the fall-through at line 109 is unreachable |
| MemoryAllocator.Allocator.Reallocate | Std/MemoryAllocator.cpp:112-136 | the block keeps its contents, possibly elsewhere, and every other block keeps its own |
| MemoryAllocator.Allocator.Report | Std/MemoryAllocator.hpp:35-50 | the sum of the free chunks and the size of the largest |
| KernelTheorems.EveryRun | Kernel/Threads/Scheduler.cpp:15-105 | after every run from the first entry into the scheduler: contexts, counts, placement and the wakeup of the SystemHandler thread as in the rows below; each mutex granted in the order of the calls to lock, and nobody waiting for a free one; calls taken in the order in which they were made, each by a worker of its own; dbgln_mutex free; and mutual exclusion if the steps were proper |
| KernelTheorems.Reachable | Kernel/Threads/Scheduler.cpp:48-105 | every reachable state satisfies the unconditional invariants and has an active thread, and the second invariant after proper steps |
| KernelRuns.StepSound | Kernel/SystemHandler.cpp:16-124 | each of the eighteen kinds of step keeps the unconditional invariant |
| KernelRuns.ChecksExact | Kernel/Threads/Scheduler.cpp:48-147 | of all VERIFYs and ASSERTs on a step's way only two can fail: a full queue, and an unlock that wakes its caller; each exactly under its stated condition |
| KernelRuns.LogIsFree | Kernel/Threads/Scheduler.cpp:140-141 | nobody holds dbgln_mutex or waits for it, so the check that the source is not sure of passes |
| KernelRuns.BootSound | Kernel/Threads/Scheduler.cpp:115-187 | the state in which the scheduler is first entered satisfies the invariant |
| KernelTheorems.StashedUnlessActive | Kernel/Threads/Thread.hpp:84-96 | a thread has a stashed context if and only if it is not the active thread |
| KernelTheorems.ContextStays | Kernel/SystemHandler.cpp:38-62 | the context a worker refers to is its caller's stash, and the caller is neither active nor queued, until the caller is put back |
| KernelTheorems.DanglingIsLast | Kernel/Threads/Scheduler.cpp:57-64 | a thread in the dangling queue is masked and dead and has no other reference; it is alone in that queue |
| KernelTheorems.HandlersDestroyNone | Kernel/Threads/Scheduler.cpp:53-73 | no handler, and no lock or poll that enters one, drops a last reference |
| KernelTheorems.OnlyDefaultDestroys | Kernel/Threads/Scheduler.cpp:135-148 | threads are destroyed by the default thread alone, as long as only holders unlock |
| KernelTheorems.InOnePlace | Kernel/Threads/Thread.cpp:80-88 | a process thread or worker that has not died is in exactly one place, masked when it waits and unmasked when it can run |
| KernelLocking.ExclusionExactly | Kernel/KernelMutex.hpp:31-86 | from an orderly state, whoever is past lock and can run is the holder after a step, if and only if the step is no system call made while the SystemHandler thread waits for a mutex it does not hold, and does not take the default thread from the run queue while it waits for one |
| KernelLocking.ProperExcludes | Kernel/Threads/Scheduler.cpp:84 | where no thread waits for itself, a step keeps exclusion if and only if it wakes or takes neither special thread while it is parked |
| KernelTheorems.ExclusiveRuns | Kernel/KernelMutex.hpp:31-86 | over every run in which no thread locks a mutex it holds, all states exclude if and only if all steps are proper |
| KernelTheorems.ExclusionAfter | Kernel/KernelMutex.hpp:31-86 | after any run of proper steps, whatever was locked, the next step loses exclusion in exactly the two cases |
| KernelLocking.LockTwice | Kernel/GlobalMemoryAllocator.cpp:45-54 | a thread that locks a mutex it holds waits for itself |
| KernelTheorems.SelfLockIsForever | Kernel/KernelMutex.hpp:50-52 | and over every run of proper steps from there it never runs again |
| KernelLocking.OrderlyExcludes | Kernel/KernelMutex.hpp:31-86 | in an orderly state whoever is past lock and can run is the holder |
| KernelTheorems.MutualExclusion | Kernel/KernelMutex.hpp:31-86 | in an orderly state at most one thread is past lock, and it is the holder |
| KernelLocking.ParkedDoesNotRun | Kernel/KernelMutex.hpp:50-54 | a thread that waits for a mutex is masked and not active, and not queued unless it is the default thread |
| KernelLocking.StepAwake | Kernel/SystemHandler.cpp:85-100 | no step, proper or not, leaves the SystemHandler thread asleep outside a mutex while a call waits |
| KernelTheorems.NoCallIsLost | Kernel/SystemHandler.cpp:80-100 | while a call waits the SystemHandler thread is active, queued, or in the queue of a mutex |
| KernelTheorems.CallsBalance | Kernel/SystemHandler.cpp:49-67 | a thread has as many calls as returns, or one more that is open or was an exit |
| KernelLocking.OrderlyExactly | Kernel/Threads/Thread.cpp:80-88 | a step keeps placement of the special threads, masks and lock ownership if and only if it neither wakes the SystemHandler thread out of a mutex nor takes the parked default thread from the run queue |
| KernelLocking.UnlockerHolds | Kernel/KernelMutex.hpp:61-80 | a thread that unlocks what it locked is the holder |
| KernelLocking.BootOrderly | Kernel/Threads/Scheduler.cpp:165-187 | the first state satisfies the second invariant too |
| KernelCapacity.NeverFull | Std/CircularQueue.hpp:133 | with at most 16 threads that can run, entries of the default thread in the run queue counted too, no enqueue overflows and no unlock wakes its caller |
| KernelCapacity.PassesChecks | Kernel/Threads/Scheduler.cpp:48-147 | then every VERIFY and ASSERT on a step's way holds |
| KernelCapacity.NoCheckFails | Kernel/Threads/Scheduler.cpp:48-105 | a run of proper steps with room never gets stuck |
| KernelReturns.RequeueReturns | Kernel/SystemHandler.cpp:54-63 | the caller is queued once, unmasked, with the result in the context it resumes from |
| KernelReturns.ResultArrives | Kernel/SystemHandler.cpp:54-63 | whatever runs in between, the caller finds the result in r0 when it is next active |
| KernelReturns.ResumesAsItWas | Kernel/Threads/Thread.hpp:84-96 | a thread that is preempted, or waits for a mutex, goes on with the value it had in r0, whatever runs in between |
| KernelCalls.SvcAsks | Kernel/SystemHandler.cpp:111-124 | the call that a thread makes is the number it has in r0 |
| KernelCalls.AskedStays | Kernel/SystemHandler.cpp:38-52 | the number stays in the caller's stash until a worker has done the call |
| KernelCalls.AskedWaits | Kernel/SystemHandler.cpp:16-25 | until then the caller is masked, and neither active nor queued |
| KernelCalls.RunDecides | Kernel/SystemHandler.cpp:50-66 | a worker that has done a call returns it if the number is not 10, and lets the caller go if it is |
| KernelCalls.NextSteps | Kernel/SystemHandler.cpp:57-63 | the next steps of a worker that is to return a call are to unmask the caller, and then to queue it |
| KernelCalls.AnsweredStays | Kernel/SystemHandler.cpp:57-63 | nothing else ends that; the second step leaves the caller queued, unmasked, with the result in its context |
| KernelCalls.GoneStays | Kernel/SystemHandler.cpp:64-66 | no step brings back a thread that exits |
| KernelCalls.CallReturns | Kernel/SystemHandler.cpp:49-67 | when a thread runs again after a call, over any run, the number in r0 was not 10, a worker has done the call, and r0 holds what it computed |
| KernelCalls.ExitIsForever | Kernel/SystemHandler.cpp:52-66 | a thread that calls with 10 in r0 is masked after every run, and neither active nor queued |
| KernelCalls.StaysOnTheWay | Kernel/SystemHandler.cpp:49-67 | over every run a call with another number is still to be done, done and to be returned, or returned |
| KernelExamples.ExclusionCanFail | Kernel/SystemHandler.cpp:24 | a run to a system call after which the SystemHandler thread, which waited for malloc_mutex to build a worker, is past lock together with the holder |
| KernelExamples.DefaultCanFail | Kernel/Threads/Scheduler.cpp:84 | a run to a context switch after which the default thread, which waited for page_allocator_mutex to destroy the startup thread, is past lock together with the holder |
| Kernel.Kernel.constructor | Kernel/Threads/Scheduler.cpp:115-187 | the first state, with its reference counts |
| Kernel.Kernel.Ref | Std/RefPtr.hpp:132-136 | one more reference is counted |
| Kernel.Kernel.Unref | Std/RefPtr.hpp:138-146 | one reference less is counted, and the object dies exactly with the last |
| Kernel.Kernel.AddThread | Kernel/Threads/Scheduler.hpp:42-46 | the thread is queued and the parameter's reference released |
| Kernel.Kernel.ClearActiveThread | Kernel/Threads/Scheduler.hpp:33-38 | the active thread is released and not destroyed |
| Kernel.Kernel.ChooseDefaultThread | Kernel/Threads/Scheduler.cpp:224-232 | a counted reference to the default thread, or to the fallback thread if that one is masked |
| Kernel.Kernel.PutAway | Kernel/Threads/Scheduler.cpp:52-73 | the active thread goes where it belongs, and each reference stays counted |
| Kernel.Kernel.Schedule | Kernel/Threads/Scheduler.cpp:48-105 | and the next thread becomes active |
| Kernel.Kernel.SchedulerNext | Kernel/Threads/Scheduler.cpp:15-25 | PendSV performs its step and keeps the counts |
| Kernel.Kernel.PendSV | Kernel/Threads/Scheduler.cpp:15-25 | on every reachable state with room in the run queue it passes all checks and keeps the invariant |
| Kernel.Kernel.WakeUp | Kernel/Threads/Thread.cpp:80-88 | a masked thread is unmasked and queued |
| Kernel.Kernel.NotifyWorkerThread | Kernel/SystemHandler.cpp:16-25 | the caller waits, masked, and the SystemHandler thread is woken |
| Kernel.Kernel.Syscall | Kernel/SystemHandler.cpp:111-124 | SVC performs its step, passes all checks and keeps invariant and counts |
| Kernel.Kernel.Acquire | Kernel/KernelMutex.hpp:48-49 | the active thread becomes the holder and its reference is counted |
| Kernel.Kernel.Park | Kernel/KernelMutex.hpp:50-52 | the active thread is masked and waits, with its reference counted |
| Kernel.Kernel.Lock | Kernel/KernelMutex.hpp:31-59 | as above for lock, with the switch when the mutex is taken |
| Kernel.Kernel.Unlock | Kernel/KernelMutex.hpp:61-86 | as above for unlock |
| Kernel.Kernel.GrantNext | Kernel/KernelMutex.hpp:73-80 | the longest waiting thread becomes the holder and is woken, with its references counted |
| Kernel.Kernel.Die | Kernel/Threads/Thread.cpp:31-43 | the thread is masked for good |
| Kernel.Kernel.Spawn | Kernel/Process.cpp:32-131 | a new thread with a context is queued |
| Kernel.Kernel.Poll | Kernel/SystemHandler.cpp:81-103 | the SystemHandler thread sleeps exactly when no call waits |
| Kernel.Kernel.TakeCall | Kernel/SystemHandler.cpp:29-33 | the first waiting caller is taken |
| Kernel.Kernel.BuildWorker | Kernel/SystemHandler.cpp:39-67 | a worker takes over the caller and a reference to its context |
| Kernel.Kernel.AddWorker | Kernel/SystemHandler.cpp:69-72 | the worker is queued |
| Kernel.Kernel.RunCall | Kernel/SystemHandler.cpp:50-55 | the result goes into the caller's own context, and the number that was there decides whether it returns, as KernelCalls.RunDecides says |
| Kernel.Kernel.UnmaskCaller | Kernel/SystemHandler.cpp:58 | the caller is unmasked and not yet queued |
| Kernel.Kernel.RequeueCaller | Kernel/SystemHandler.cpp:60-63 | the caller is queued and the worker lets go of it |
| Kernel.Kernel.LeaveExited | Kernel/SystemHandler.cpp:64-66 | a caller that exits stays masked and is never queued |
| Kernel.Kernel.TakeDangling | Kernel/Threads/Scheduler.cpp:127-138 | the default thread takes the dangling thread |
| Kernel.Kernel.CheckLog | Kernel/Threads/Scheduler.cpp:140-141 | the check passes, and the default thread goes on |
| Kernel.Kernel.DropThread | Kernel/Threads/Scheduler.cpp:146-148 | the reference is the last one and the thread is destroyed |
| SortedSeq.InsertSorted | Std/SortedSet.hpp:258-289 | insertion keeps the order and adds the value, replacing the element that compares equal |
| SortedSeq.RemoveSorted | Std/SortedSet.hpp:208-226 | removal keeps the order and takes out what compares equal and nothing else |
| SortedSeq.ContainsIff | Std/SortedSet.hpp:291-305 | membership means that some element compares equal |
| SortedTree.FindContains | Std/SortedSet.hpp:291-305 | the search path finds the element of the in-order sequence that compares equal, if there is one |
| SortedTree.PutIsInsert | Std/SortedSet.hpp:258-289 | the in-order sequence after tree insertion is that of sequence insertion |
| SortedTree.PutHangs | Std/SortedSet.hpp:268-287 | inserting a new value changes one pointer of one node and adds a leaf |
| SortedTree.TakeIsRemove | Std/SortedSet.hpp:208-226 | the in-order sequence after tree removal, two children included, is that of sequence removal |
| SortedTree.TakeAssigns | Std/SortedSet.hpp:319-347 | node by node, removal is the assignments of remove_impl |
| SortedTree.VictimFacts | Std/SortedSet.hpp:214-225 | the node that is cut out has at most one child and hangs below the parent passed along |
| SortedSet.SortedSet.SearchImpl | Std/SortedSet.hpp:291-305 | finds the subtree and the last node passed |
| SortedSet.SortedSet.MinImpl | Std/SortedSet.hpp:307-317 | finds the least node and its parent |
| SortedSet.SortedSet.Search | Std/SortedSet.hpp:165-174 | finds a value if and only if an element compares equal, and returns that element |
| SortedSet.SortedSet.Insert | Std/SortedSet.hpp:258-289 | the pointer tree refines sequence insertion, `m_size` is the number of elements, and the ASSERTs hold |
| SortedSet.SortedSet.Remove | Std/SortedSet.hpp:208-226 | the pointer tree refines sequence removal; the root's parent pointer leads out of the set exactly if it did before or its only child was promoted |
| SortedSet.SortedSet.CutOut | Std/SortedSet.hpp:216-225 | what removal writes, node by node, once the element is found |
| SortedSet.SortedSet.RemoveImpl | Std/SortedSet.hpp:319-347 | what is written when a node with at most one child is cut out |
| SortedSet.SortedSet.ReplaceChild | Std/SortedSet.hpp:79-97 | the child pointer and the child's parent pointer are replaced |
| SortedSet.InorderIterator.constructor | Std/SortedSet.hpp:228-234 | iteration starts at the first element |
| SortedSet.InorderIterator.Value | Std/SortedSet.hpp:119-120 | the element at the iterator's index |
| SortedSet.InorderIterator.Advance | Std/SortedSet.hpp:122-143 | the next index, or the end; the climb terminates, and from every element but the last it does not look at the root's parent pointer |
| SortedSet.Elements | Std/SortedSet.hpp:106-162 | a loop over the set sees every element once, in increasing order |
| SortedSet.PromotionOrphans | Std/SortedSet.hpp:328-342 | removing the root of a two-element set leaves a root whose parent pointer leads to the deleted node |
| HashTable.OrderIsStrictWeak | Std/HashTable.hpp:109-133 | hash first and value second is an order for every hash function |
| HashTable.HashTable.ByHash | Std/HashTable.hpp:109-133 | the table is in the order of the hashes, and of the values where hashes are equal |
| HashTable.HashTable.Insert | Std/HashTable.hpp:76-83 | the table gains the value, in place of what compares equal |
| HashTable.HashTable.Search | Std/HashTable.hpp:85-97 | found exactly when a stored value compares equal, with its own hash |
| HashTable.HashTable.Remove | Std/HashTable.hpp:99-102 | what compares equal is gone and nothing else |
| HashMap.KeysCount | Std/HashMap.hpp:64-67 | no key is stored twice |
| HashMap.HashMap.Set | Std/HashMap.hpp:18-33 | the map is updated at the key |
| HashMap.HashMap.Get | Std/HashMap.hpp:35-57 | the value of the map at the key, or none |
| HashMap.HashMap.Remove | Std/HashMap.hpp:59-62 | the key leaves the map |
| HashMap.HashMap.Size | Std/HashMap.hpp:64-67 | the number of keys of the map |
| PageLayout.AllocIs | Kernel/PageAllocator.cpp:84-114 | the head of the least non-empty level k is returned, one block is left at each level from p to k - 1, nothing else changes; it fails exactly when no level has a block |
| PageLayout.RunKeepsPartition | Kernel/PageAllocator.cpp:84-140 | over any run each byte is in exactly one range, free or in use |
| PageLayout.LiveDisjoint | Kernel/PageAllocator.cpp:69-82 | two ranges in use have no byte in common |
| PageLayout.RunFiner | Kernel/PageAllocator.cpp:84-140 | over any run every range lies within a range there was before |
| PageLayout.RunAligned | Kernel/PageAllocator.cpp:84-140 | over any run every range of at least a page starts at a page |
| PageLayout.RoundsUp | Std/Forward.hpp:83-86 | the least multiple at or above the value, or 0 when that is 2^32 |
| PageLayout.AboveStep | Kernel/PageAllocator.cpp:27-39 | a block of a size is taken exactly where the length has that binary digit |
| PageAllocator.FitsExactly | Kernel/PageAllocator.cpp:31-33 | the comparison with the end of the area decides the binary digit |
| PageAllocator.LinkFits | Kernel/PageAllocator.hpp:90-95 | a block has room for its m_next exactly from power 2 on |
| PageAllocator.PageAllocator.constructor | Kernel/PageAllocator.cpp:58-67 | the area, up to 2^20 - 1 bytes of it, is divided into contiguous, page-aligned blocks, one for each binary digit of its length, with less than a page left over |
| PageAllocator.PageAllocator.DiscoverBlocks | Kernel/PageAllocator.cpp:21-40 | the same for lists that were empty |
| PageAllocator.PageAllocator.AllocateLocked | Kernel/PageAllocator.cpp:84-114 | the linked blocks refine the recursion on lists |
| PageAllocator.PageAllocator.DeallocateLocked | Kernel/PageAllocator.cpp:128-140 | the block is put in front of its list |
| PageAllocator.PageAllocator.Allocate | Kernel/PageAllocator.cpp:69-82 | a range that overlaps no other |
| PageAllocator.PageAllocator.Deallocate | Kernel/PageAllocator.cpp:116-126 | the range is free again |
| PageAllocator.PageAllocator.Write | Kernel/PageAllocator.hpp:90-95 | writing anywhere in a range in use leaves all lists intact |
| CircularQueue.PositionIsExact | Std/CircularQueue.hpp:83-89 | the wrapped index expression gives the right slot if and only if it does not overflow at the top, which 2^31 elements cannot do |
| CircularQueue.CircularQueue.Enqueue | Std/CircularQueue.hpp:129-142 | the element is appended |
| CircularQueue.CircularQueue.EnqueueFront | Std/CircularQueue.hpp:144-157 | the element is prepended |
| CircularQueue.CircularQueue.Dequeue | Std/CircularQueue.hpp:91-101 | the first element is removed and returned |
| CircularQueue.CircularQueue.Get | Std/CircularQueue.hpp:83-89 | the element at the index |
| CircularQueue.CircularQueue.Clear | Std/CircularQueue.hpp:108-115 | the queue is empty |
| CircularQueue.CircularQueue.Assign | Std/CircularQueue.hpp:117-127 | the contents move over in order and the other queue is empty |
| MemoryMove.WordIsBytes | Userland/LibC/sys/abi.c:57-72 | a word is its four bytes, the first in the lowest eight bits |
| MemoryMove.MemoryIsBytes | Userland/LibC/sys/abi.c:57-72 | and so is each word of memory, the byte at the lowest address first |
| MemoryMove.ReplacedWord | Userland/LibC/sys/abi.c:82-94 | the word after a write is made of the new byte and the three others, each at its place |
| MemoryMove.ReplaceIsExact | Userland/LibC/sys/abi.c:74-95 | one byte of a word is replaced and the three others stay |
| MemoryMove.WriteByte | Userland/LibC/sys/abi.c:74-95 | exactly one byte of memory changes |
| MemoryMove.Move | Userland/LibC/sys/abi.c:97-117 | for every overlap and alignment the destination holds the old source bytes and no other byte changes |
| Paths.Lexer.ConsumeUntil | Std/Lexer.hpp:60-69 | the longest prefix without the character is consumed |
| Paths.ParsePath | Std/Path.hpp:15-30 | the parser computes the components |
| Paths.PrintPath | Std/Path.hpp:63-85 | the printer computes the joined text |
| Paths.ParsePrint | Std/Path.hpp:15-85 | parsing a printed path gives it back if and only if the path is plain |
| Paths.PrintParse | Std/Path.hpp:15-85 | printing a parsed text gives the text without one trailing slash, unless it is just a slash |
| Paths.ParentAndFilename | Std/Path.hpp:44-94 | parent and file name make up the path |
| Paths.PrintBelow | Std/Path.hpp:87-94 | the text of a combined path is the text of the one, a slash, and the text of the other |
| FileSystem.WalkOn | Kernel/FileSystem/FileSystem.cpp:24-46 | looking up a path is looking up its front, and then the rest from there |
| FileSystem.RelativeLookup | Kernel/Threads/Thread.cpp:165-168 | a name without a leading slash, of any number of components, is looked up from the directory that the working directory leads to |
| FileSystem.AbsoluteLookup | Kernel/Threads/Thread.cpp:163-168 | a name with a leading slash does not depend on the process |
| FileSystem.CreatedIsFound | Kernel/Threads/Thread.cpp:170-184 | when creation is reached the parent is a directory without that name; one memory file is added under it and nothing else changes; afterwards the path is found and every earlier lookup is unchanged, cycles included |
| FileSystem.Processes.TryLookup | Kernel/FileSystem/FileSystem.cpp:24-46 | the loop computes the walk over the graph with its errors |
| FileSystem.OpenChecksExact | Kernel/Threads/Thread.cpp:158-213 | open fails a check if and only if the name is empty, or it truncates a device or a flash file without asking for a directory |
| FileSystem.EmptyNameFails | Std/Path.hpp:17 | the empty name fails a check |
| FileSystem.TruncatingDeviceFails | Kernel/Threads/Thread.cpp:199-204 | so does truncating /dev/tty |
| FileSystem.TruncatingFlashFails | Kernel/FileSystem/FlashFileSystem.hpp:43-46 | so does truncating /bin/Shell.elf |
| FileSystem.Processes.constructor | Kernel/FileSystem/MemoryFileSystem.cpp:10-25 | the files after the boot; the first process is in the root directory |
| FileSystem.BootDots | Kernel/FileSystem/MemoryFileSystem.cpp:15-24 | after the boot "." of each directory is itself and ".." the root |
| FileSystem.Processes.Open | Kernel/Threads/Thread.cpp:158-213 | all outcomes of open, each flag and each failing check written out; a created file is in memory and is all that is added; earlier lookups and all working directories stay good |
| FileSystem.Processes.ChangeDirectory | Kernel/Threads/Thread.cpp:341-362 | all outcomes of chdir; each working directory is absolute and leads to a directory |
| FileSystem.Processes.Lookup | Kernel/FileSystem/FileSystem.cpp:7-22 | the loop computes the same walk, and fails an ASSERT where the other returns an error |
| FileSystem.Processes.Spawn | Kernel/Threads/Thread.cpp:264-307 | it fails a check exactly when the executable is not found, is not in flash, or its path is not spelled as in the table; otherwise the new process starts in the working directory of the old one |
| FileSystem.SpawnByAnotherNameFails | Kernel/Threads/Thread.cpp:293-299 | a path that leads to the shell's file and is spelled differently fails a check |
| FileSystem.ThreeSpawn | Kernel/Threads/Thread.cpp:293-299 | after the boot each of the three executables can be spawned |
| FileSystem.RunKeeps | Kernel/Threads/Thread.cpp:158-362 | over any run of these calls, each as its method serves it, each working directory is absolute and leads to a directory, and every earlier lookup gives the same file |
| FileSystem.EveryWorkingDirectory | Kernel/Process.hpp:37 | the same from the boot on |
| FlashImage.LoadWord | Tools/LibElf/RelocationTable.cpp:35-38 | with relocations at different words, each adds its symbol and the base to its own word |
| FlashImage.LoadClean | Tools/LibElf/RelocationTable.cpp:35-38 | what no relocation touches is loaded as written |
| FlashImage.WordIs | Tools/LibElf/RelocationTable.cpp:35-38 | a word has its lowest byte first |
| FlashImage.FileRecord | Kernel/FileSystem/FlashFileSystem.hpp:30-39 | inode, mode, size and data of a file are words 1, 2, 4 and 9 of its record, and its contents are that many bytes from there |
| FlashImage.FileReadsBack | Kernel/FileSystem/FlashFileSystem.cpp:43 | from an image in order, loaded anywhere, a file is read with its inode and exactly its bytes |
| FlashImage.DirectoryReadsBack | Kernel/FileSystem/FlashFileSystem.cpp:22-46 | a directory is read with its inode, ".", "..", and under each name what is read for the file of that name, where ".." of a directory leads back; nothing else is in it |
| FlashImage.ExpectedExactly | Kernel/FileSystem/FlashFileSystem.cpp:29-45 | the same of what was built: the last entry of a name counts, and "." and ".." lead to the directory where no entry has that name |
| FlashBuilder.Builder.Write | Tools/FileSystem.cpp:74-141 | the bytes, the record, the symbols and the relocation that are appended |
| FlashBuilder.RecordWords | Tools/FileSystem.cpp:86-126 | the record word by word |
| FlashBuilder.Builder.AddFile | Tools/FileSystem.cpp:74-141 | the image stays in order and gains the file |
| FlashBuilder.Builder.AddDirectory | Tools/FileSystem.cpp:40-69 | the image stays in order and gains the directory with the files it names; for inode 2 the last symbol leads to its record |
| FlashBuilder.Builder.AddSymbol | Tools/LibElf/SymbolTable.cpp:33-41 | symbols are numbered in the order in which they are added |
| FlashBuilder.Builder.RoundTrip | Kernel/FileSystem/FlashFileSystem.cpp:22-46 | every file that was added is read back with its bytes, and every directory with what its files read back as |

## Left out

- SortedSet.InorderIterator.Advance: from the last element it requires that the root's parent pointer is null; otherwise the climb reads a deleted node, whose memory the model does not describe.
- SortedSet.Elements: requires the same, since it goes on to the end.
- KernelLocking.OrderlyExactly: reads the source's intended use of a mutex into the steps, a thread unlocks only what it locked.
- KernelTheorems.ExclusiveRuns: excludes runs in which a thread locks a mutex it holds; ExclusionAfter covers the first step after such a lock, too.
- KernelTheorems.InOnePlace: dead threads are excepted, since one that dies while it holds a mutex is in no queue.
- KernelCapacity.NeverFull: the bound of 16 counts the SystemHandler thread, and the default thread for lock and for each of its entries in the run queue.
- PageAllocator.PageAllocator.AllocateLocked: powers below 2 are excluded, since such a block cannot hold its own m_next (LinkFits); callers ask for whole pages.
- PageAllocator.PageAllocator.DeallocateLocked: powers below 2 are excluded for the same reason.
- PageAllocator.PageAllocator.Allocate: powers below 2 are excluded for the same reason.
- MemoryAllocator.Allocator.Allocate: requests for which size + 8 wraps are excluded; GuardIsExact says what the test does with them, and WrapBreaks what may follow.
- MemoryAllocator.Allocator.Reallocate: the same requests are excluded.
- PageAllocator.PageAllocator.constructor: the area must end 2^19 + 256 bytes below 2^32, so that the address of a block's end does not wrap.
- KernelRuns.BootSound: the first state already has the SystemHandler thread, which the startup thread creates before the first process (Kernel/main.cpp:71); it sleeps until a process makes a call.
- MemoryMove.Move: counts from 2^31 on, for which the signed loop variable overflows, are excluded.
- FlashImage.FileReadsBack: records may stand at any address, although the tool does not align them and the processor asks for it.
- FlashBuilder.Builder.AddDirectory: file names are byte strings without a zero, shorter than the field; the rest of the field is zero here and whatever the stack held in the source.
- FileSystem.Processes.Open: ends before the file handle is created, and truncation does not change the graph.
- FileSystem.Processes.Spawn: arguments, environment and the loading of the executable are not part of this model.
- Assembly context switching, SysTick, MPU registers, UART and DMA: only that PendSV and SVC happen is kept.
- Registers other than r0, user memory and what a system call does apart from its result.
- Threads' own code: any thread may lock, unlock, spawn, compute or be preempted at any time; the special threads and workers follow their loops.
- The enable flag of KernelMutex before the scheduler exists.
- Reclamation of exited processes: the worker's closure keeps the caller for ever, which the model records as a reference that is never dropped.
- Liveness of the scheduler: while a thread dangles and the default thread is blocked, only the fallback thread is chosen.
- SortedSet: min, clear, moving a set and printing.
- Hash functions for strings and integers: parameters here.
- Debug output and traces, ELF section headers, symbol names, host files and memory mapping.
- HardwareSpinLock, the shell, the editor and the C library apart from memmove.
