# Verified model of the kernel's synchronisation, paging and heap

A Dafny model of the parts of the kernel whose correctness cannot be seen from one
function: the Hoare monitor and its bounded-buffer clients over P/V semaphores, demand
paging with swap, the `malloc`/`free` heap in raw memory, and four smaller pieces they
rest on (interrupt bracketing, the scheduler, the process tree, page-pointer arithmetic).

Run `dafny verify dfyconfig.toml` in this directory.

## How the project is built

| modules | what they model |
|---|---|
| Runs, Counting, Loops | sequences of states, counts, passes through loops and runs that go on to rest |
| Semaphores | P and V as atomic steps on any number of semaphores and processes; class `Semaphore` does them in place |
| Monitor, MonitorSafety, MonitorObject | one step per statement of `enter`, `wait`, `signal`, `leave` and the invariant; what every run guarantees; class `MonitorT` holds the fields and takes the steps in place |
| MonitorBuffer, MonitorItems, MonitorProgress, MonitorProgram | the producer and consumer loops on top of it, for any number of each; that no item is lost; that nobody is stuck; the loops in place |
| SemaphoreBuffer, SemaphoreItems, SemaphoreProgress | the loops on `full_s` and `mutex`, with the unlocked test of `buffer_s`, and the same for them |
| Interrupts, Switches | P, V, `schedule` and the timer handler statement by statement, with the interrupt flag; what a tick, `cli` and `sti` make possible |
| Preemption, Realization | any client code over Interrupts: preemptible runs refine runs in which P and V are single steps, and every such run is what some preemptible run shows |
| PreemptibleMonitor, PreemptibleMonitorBuffer, PreemptibleSemaphoreBuffer | the monitor and both buffers as such client code |
| Scheduler | the cyclic scan of `schedule` |
| Memory, Lists | little-endian words in a byte array; the circular list on it |
| Heaps | the chunk list of `malloc` and `free` as a sequence: the specification |
| HeapMemory, Malloc, KernelHeap, KernelHeapRuns | the same operations on chunk headers and links in raw memory, proved to do what Heaps says, call by call and over whole runs |
| Slots, SwapDisk | the raw 32-bit page-table entry, the swap slot in it, sectors |
| Swap, SwapInvariant | `do_swap` and everything on its path, on raw entries, frames and sectors; what it keeps |
| SwapRuns, SwapLoss | refinement to flat memory over runs; the booted kernel; what a paged directory entry 0 would break |
| Paging | class `AddressSpace`: the same code, and the accesses that fault into it, updating directory, frames, disk, list and cache in place |
| ProcTree | fork, reparenting and recycling on the sibling pointers |
| PagePointers | `struct Page` pointers with and without 0xC0000000 |

The protocols are state machines: a state, the steps it can take, and theorems about
every state of every run, proved from an inductive invariant (`Inv`, `StepKeepsInv` or
the `...Keeps` lemmas). Where the source updates objects in place there is a class whose methods are proved equal
to the step or specification function on the class's abstract value.

P, V and `schedule` are atomic in the coarse models. That is not an assumption: in
Interrupts they run statement by statement, preemptible wherever interrupts are on.
`Interrupts.RunRefines` shows each such run, its commits read off, to be a run of atomic P
and V. `Preemption.RunRefines` adds client code whose own statements are preempted too, and
the three Preemptible modules carry every preemptible run of the monitor and of the two
buffers to a run of the atomic model, so that what is proved there holds at every statement.
The other way round, `Realization.RunRealized` builds for every atomic run a preemptible one
that shows it, and `Switches.TickSwitches` a way from every point with interrupts on to any
other runnable process: the statement-level machine does what the atomic one can do, and no
more.

## What was found

* **Swap is transparent for every range this kernel can page.** Boot fills directory entry
  0, so no page below 4 MiB ever faults, and every run of accesses is a run of flat memory
  (`SwapLoss.BootedRunRefines`, `SwapRuns.KernelLastStoreIsRead`).
* **The never-mapped test would fail for seven pages if entry 0 were paged.** A swapped-out
  page is recognised by `page_addr == 0 && sign == 0` being false. The slot of page v is
  `(v + 1) << 8`; for v in {1, 3, 5, 7, 9, 11, 13} it lies in the `os` bits only, so the page
  looks never mapped and its next fault maps a frame with whatever it held.
  `Slots.SlotSeenExactly` gives the exact set, `SwapRuns.AccessRefinesExactly` the exact
  condition for an access, `SwapLoss.PageLost` a run. It needs a directory whose entry 0 is
  not the one boot makes; as booted it cannot happen.
* **The semaphore buffer exceeds its limit of 5** exactly when there is more than one
  producer (`SemaphoreBuffer.LimitOfFiveIffOneProducer`), because the test `buffer_s < 5`
  is made outside the lock; 4 + k is the attained bound for k producers.
* **`schedule` leaves interrupts off** when it returns early because no process exists
  (schedule/process/sched.c:15 skips line 40); `Scheduler.Cpu.Schedule` states that IF is
  restored exactly when a process exists or IF was off. As booted IF is always off there:
  until proc_init only the timer handler calls schedule, through an interrupt gate.
* **The monitor is right as written.** The remark "failed!!" at entry/entry.c:110 does not
  describe this code: with the `cli` fix noted at idt/pic.c:41-44, exclusion, hand-off and
  deadlock freedom hold for every interleaving.
* `malloc` does not check its sum: for the twelve largest sizes 12 + size wraps to less than
  a header (`Heaps.TotalCovers`), and a NULL from alloc_page is used as a page.
* `(vma->flags & 0x2) == 1` at mm/vmm.c:179 is never true, so a first touch always maps
  with 0x5. The model writes 0x5 there. A store is then performed as the kernel's own stores
  are (supervisor mode; mm/swap.c:135-182 is such code).
* A frame given to a first touch is not cleared: the page holds what the frame held.

## Model

| member | source | states |
|---|---|---|
| Semaphores.PKeepsWellFormed | schedule/synchronize/semaphore.c:18-33 | P by an awake process keeps: queue length is max(0, -value), queues hold distinct sleepers, every sleeper is in exactly one queue |
| Semaphores.VKeepsWellFormed | schedule/synchronize/semaphore.c:35-49 | V keeps the same |
| Semaphores.VNeverDequeuesEmpty | schedule/synchronize/semaphore.c:39-43 | V takes from the queue exactly when value after the increment is at most 0, and then there is a sleeping process to wake: the unguarded `s->queue.next` is a process |
| Semaphores.WellFormedInEveryRun | schedule/synchronize/semaphore.c:18-49 | the invariant in every state of every run of P and V by awake processes |
| Semaphores.ValueAccounting | schedule/synchronize/semaphore.c:22-39 | value is the initial value plus V steps minus P steps |
| Semaphores.WakeupsAreFifo | schedule/synchronize/semaphore.c:24-43 | those who went to sleep are those woken, in the same order, followed by those still queued |
| Semaphores.Semaphore.P | schedule/synchronize/semaphore.c:18-33 | the in-place P computes the new value and queue and puts the caller to sleep exactly when value was not positive |
| Semaphores.Semaphore.V | schedule/synchronize/semaphore.c:35-49 | the in-place V computes the new value and queue and wakes exactly the oldest sleeper, if there is one to wake |
| MonitorSafety.StepKeepsInv | schedule/synchronize/monitor.c:34-89 | every statement of every process keeps the monitor invariant (token, counters, claims, tests still true) |
| MonitorSafety.TokenConserved | schedule/synchronize/monitor.c:34-89 | owners (counting one woken and not yet resumed) plus the positive parts of all semaphore values is 1, in every run, for any number of processes and conditions |
| MonitorSafety.MutualExclusion | schedule/synchronize/monitor.c:72-89 | two owners are the same process |
| MonitorSafety.CounterMeaning | schedule/synchronize/monitor.c:36-41 | at each branch the counter read equals the processes asleep on that semaphore or about to call P on it, plus the reader itself for x_count inside wait |
| MonitorSafety.HandOverReachesSomeone | schedule/synchronize/monitor.c:58-62 | V on `next` or an x_sem makes the oldest sleeper the owner or leaves the token to an awake process about to take it; the caller no longer owns |
| MonitorSafety.ClaimSucceeds | schedule/synchronize/monitor.c:37-42 | whoever is about to call P where a token lies gets the monitor without sleeping |
| MonitorSafety.SignallersGoFirst | schedule/synchronize/monitor.c:84-88 | the entry semaphore is released only when no signaller is parked or in its window |
| MonitorSafety.MonitorNeverLost | schedule/synchronize/monitor.c:34-89 | the monitor is free to enter or an awake process is in it or about to take it |
| MonitorObject.MonitorT.constructor | schedule/synchronize/monitor.c:10-21 | monitor_init yields an initial state for any number of conditions |
| MonitorObject.MonitorT.Step | schedule/synchronize/monitor.c:34-89 | the in-place statement is the step of the state machine and keeps the invariant |
| MonitorObject.MonitorT.RunAll | schedule/synchronize/monitor.c:34-89 | on any schedule every choice has its effect on the object in turn, and the steps taken are a run of the state machine |
| MonitorBuffer.StepKeepsInv | schedule/synchronize/productor_consumer.c:86-110 | every statement of every producer and consumer keeps what the owner, or the process handed to, knows about buffer_m |
| MonitorBuffer.BufferBounded | schedule/synchronize/productor_consumer.c:86-110 | 0 <= buffer_m <= 5 in every run, any number of producers and consumers |
| MonitorBuffer.HandOffExact | schedule/synchronize/productor_consumer.c:90-104 | back from wait a consumer finds 1 item and a producer 4, so the `if` needs not be a `while` |
| MonitorBuffer.BufferTouchedByOwnerOnly | schedule/synchronize/productor_consumer.c:90-106 | a process at a statement on buffer_m is the only owner |
| MonitorBuffer.NoLostWakeup | schedule/synchronize/productor_consumer.c:90-106 | when the monitor is free, a consumer parked on CONSUMER implies an empty buffer and a producer parked on PRODUCER one of 5 |
| MonitorBuffer.NeverDeadlocked | schedule/synchronize/productor_consumer.c:86-110 | with a producer and a consumer some process can always step |
| MonitorBuffer.RefinesMonitor | schedule/synchronize/productor_consumer.c:86-110 | the monitor states of a buffer run, less the steps that leave the monitor alone, are a run of the monitor |
| MonitorItems.ItemsConserved | schedule/synchronize/productor_consumer.c:86-110 | in every run buffer_m is the passes enter..leave that producers have completed less those of consumers, but for those still inside who have changed it: no item is lost, none made up |
| MonitorProgress.EveryoneCanPass | schedule/synchronize/productor_consumer.c:86-110 | with a producer and a consumer every run goes on to one in which any given process, parked in wait or not, has completed one more pass |
| MonitorProgress.CanBeFilledOrEmptied | schedule/synchronize/productor_consumer.c:86-110 | every run goes on to one with buffer_m at 5 if there is a producer, and to one at 0 if there is a consumer |
| MonitorProgram.Program.Step | schedule/synchronize/productor_consumer.c:86-110 | the in-place loops take exactly these steps and keep the invariant |
| SemaphoreBuffer.StepKeepsInv | schedule/synchronize/productor_consumer.c:36-63 | every statement of the semaphore version keeps its invariant |
| SemaphoreBuffer.BufferBounded | schedule/synchronize/productor_consumer.c:36-63 | 0 <= buffer_s <= 4 + k with k producers and any number of consumers, and one process at a time in the critical section |
| SemaphoreBuffer.BoundAttained | schedule/synchronize/productor_consumer.c:40-46 | for every k >= 1 some run reaches 4 + k |
| SemaphoreBuffer.LimitOfFiveIffOneProducer | schedule/synchronize/productor_consumer.c:40 | the intended limit holds in every run exactly when there is at most one producer |
| SemaphoreItems.ItemsConserved | schedule/synchronize/productor_consumer.c:36-63 | in every run buffer_s is the passes producers have completed less those of consumers, but for those between their change of buffer_s and the top of the loop |
| SemaphoreProgress.ConsumeOne | schedule/synchronize/productor_consumer.c:52-63 | a run at rest with items goes on to one at rest with one item less, taken by any given consumer |
| SemaphoreProgress.CanBeEmptied | schedule/synchronize/productor_consumer.c:52-63 | every run, from whatever state, goes on to one with an empty buffer if there is a consumer |
| SemaphoreProgress.EveryoneCanPass | schedule/synchronize/productor_consumer.c:36-63 | with a producer and a consumer every run goes on to one in which any given process has completed one more pass |
| SemaphoreBuffer.Program.StepProducer | schedule/synchronize/productor_consumer.c:36-49 | the in-place producer takes the model's step |
| SemaphoreBuffer.Program.StepConsumer | schedule/synchronize/productor_consumer.c:52-63 | the in-place consumer takes the model's step |
| Interrupts.InvInEveryRun | schedule/process/proc.c:26-38 | how saved flags, calls and suspended processes fit together, in every statement-level run |
| Interrupts.NoTimerInsideBodies | schedule/synchronize/semaphore.c:20-32 | where a timer interrupt is possible the running process is not between cli and sti of P, V or schedule, nor in the handler |
| Interrupts.OnlyOneBody | schedule/process/sched.c:13-40 | every process other than the running one is held after the switch in schedule or has not started |
| Interrupts.ReturnRestoresIntr | schedule/process/switch_to.S:3-28 | on return from a call or interrupt a process sees the IF it had on entry, although switch_to saves no EFLAGS and others ran in between |
| Interrupts.StatementRefines | schedule/process/proc.c:26-38 | each statement is one atomic P or V of the running, awake process or changes nothing |
| Interrupts.RunRefines | idt/timer.c:23-30 | for every preemptible run the sequence of its commits is a run of atomic P and V that ends in what the semaphores amount to |
| Interrupts.SemaphoresWellFormed | schedule/synchronize/semaphore.c:18-49 | hence the semaphore invariant at every point outside the bodies |
| Interrupts.CommittedAccounting | schedule/synchronize/semaphore.c:18-49 | and outside any call a value is the initial one plus the V and minus the P committed so far, and wake-ups were first-in first-out |
| Switches.TickSwitches | idt/timer.c:23-30 | wherever IF is on, for every other runnable process there is a way on from a tick, of next statements only, to where it runs and the interrupted process is held with the interrupt on its stack |
| Switches.YieldSwitches | schedule/process/sched.c:11-41 | the same for a call of schedule in a process's own code |
| Switches.Resumes | schedule/process/switch_to.S:3-28 | a process that runs again after it was held comes out of schedule and of the interrupt or P that called it, with IF as when that began |
| Switches.CliMasks | idt/pic.c:39-45 | after cli no tick comes and no other process runs until the process executes sti or calls P or schedule, V allowed |
| Switches.StiLetsSwitch | idt/pic.c:34-37 | right after sti a tick can come and with it any other runnable process |
| Switches.MaskAndUnmask | idt/pic.c:34-45 | in its own code a process can execute cli and sti and then be preempted |
| Preemption.MoveRefines | schedule/process/proc.c:26-38 | each statement of preemptible client code, body, schedule or handler is one step of the running, awake process with its P or V atomic, or changes nothing |
| Preemption.RunRefines | idt/timer.c:23-30 | the same for every move of every preemptible run |
| Preemption.KeptInEveryRun | idt/timer.c:23-30 | what atomic steps keep holds at every statement of every preemptible run |
| Preemption.RunSimulates | idt/timer.c:23-30 | every preemptible run is, but for moves the atomic view does not see, a run of any model whose steps the code's atomic steps are |
| Realization.TickSwitches | idt/timer.c:23-30 | the same for client code, between two of its statements too: another process runs, and no client state has changed |
| Realization.RunRealized | schedule/synchronize/semaphore.c:18-49 | every run with P and V as single steps is what some preemptible run shows, but for steps that change nothing |
| PreemptibleMonitor.RefinesMonitor | schedule/synchronize/monitor.c:34-89 | every preemptible run of the monitor code is, in the atomic view, a run of the monitor |
| PreemptibleMonitor.TokenConserved | schedule/synchronize/monitor.c:34-89 | one owner or one free token at every statement of it |
| PreemptibleMonitor.RealizesEveryRun | schedule/synchronize/monitor.c:34-89 | every run of the monitor is what some preemptible run of its code shows |
| PreemptibleMonitorBuffer.RefinesBuffer | schedule/synchronize/productor_consumer.c:86-110 | every preemptible run of the producers and consumers is, in the atomic view, a run of the monitor buffer |
| PreemptibleMonitorBuffer.BufferBounded | schedule/synchronize/productor_consumer.c:86-110 | 0 <= buffer_m <= 5 at every statement of it |
| PreemptibleMonitorBuffer.ItemsConserved | schedule/synchronize/productor_consumer.c:86-110 | no item is lost or made up, at every statement of every preemptible run |
| PreemptibleMonitorBuffer.RealizesEveryRun | schedule/synchronize/productor_consumer.c:86-110 | every run of the monitor buffer is what some preemptible run shows |
| PreemptibleSemaphoreBuffer.RefinesBuffer | schedule/synchronize/productor_consumer.c:36-63 | every preemptible run of the semaphore version is, in the atomic view, a run of it with atomic P and V |
| PreemptibleSemaphoreBuffer.BufferBounded | schedule/synchronize/productor_consumer.c:36-63 | 0 <= buffer_s <= 4 + k at every statement of it |
| PreemptibleSemaphoreBuffer.ItemsConserved | schedule/synchronize/productor_consumer.c:36-63 | no item is lost or made up, at every statement of every preemptible run |
| PreemptibleSemaphoreBuffer.RealizesEveryRun | schedule/synchronize/productor_consumer.c:36-63 | every run of the semaphore buffer is what some preemptible run shows |
| Scheduler.ChoiceUnique | schedule/process/sched.c:17-38 | the scan's result is determined: the nearest runnable process after current, idle only if nothing else is runnable |
| Scheduler.ChoiceByPosition | schedule/process/sched.c:17-38 | in list order: no process between the current one and the chosen one, going up and round past the list head, is runnable; idle exactly when none but the current one is |
| Scheduler.ChoiceComesCloser | schedule/process/sched.c:20-30 | every choice is the waiting process or lies strictly closer to it |
| Scheduler.BoundedBypass | schedule/process/sched.c:15-38 | on n processes one that stays runnable is chosen within n calls |
| Scheduler.Cpu.Schedule | schedule/process/sched.c:11-41 | the loop ends with that choice; IF is restored exactly when a process exists or IF was off |
| Memory.WriteFour | include/list.h:37-49 | four stores to disjoint words read back and change no other byte |
| Lists.InsertBeforeRing | include/list.h:37-42 | the four writes splice the node in before a node of the ring and change only link words of it and its neighbours |
| Lists.InsertAfterRing | include/list.h:44-49 | the same after a node, also when the ring has one node |
| Lists.DeleteRing | include/list.h:51-55 | the two writes take exactly that node out of the ring |
| Lists.ListInit | include/list.h:32-35 | the in-place function is the specified write sequence |
| Lists.ListInsertBefore | include/list.h:37-42 | the in-place function is the specified write sequence |
| Lists.ListInsertAfter | include/list.h:44-49 | the in-place function is the specified write sequence |
| Lists.ListDelete | include/list.h:51-55 | the in-place function is the specified write sequence |
| Heaps.MallocKeepsInv | mm/malloc.c:18-72 | malloc keeps: extents disjoint, inside pages obtained, no two mergeable neighbours, byte conservation with at most 12 bytes of slack a growth |
| Heaps.FreeKeepsInv | mm/malloc.c:74-93 | free of a block in use keeps the same |
| Heaps.MallocAddsBlock | mm/malloc.c:24-71 | malloc adds exactly the block it hands out, of the size asked for, to the blocks in use |
| Heaps.MallocFitsExactly | mm/malloc.c:21-52 | malloc takes new pages exactly when no free chunk has 12 + size bytes |
| Heaps.MallocUsesFirstRoom | mm/malloc.c:24-37 | otherwise the block is cut off the front of the first free chunk that has, an exact fit included |
| Heaps.MallocGrowsLeast | mm/malloc.c:55-70 | the pages are the fewest for 12 + size bytes; a chunk made of the rest holds at least one byte, and a rest without chunk is at most 12 bytes |
| Heaps.FreeRemovesBlock | mm/malloc.c:76-93 | free removes exactly the freed block |
| Heaps.MallocThenFree | mm/malloc.c:24-93 | a malloc served by splitting, then the free of that block, restores the heap exactly |
| Heaps.HeapSafe | mm/malloc.c:18-102 | the invariant in every run of malloc and free from the empty heap |
| HeapMemory.ChunkLinked | mm/malloc.c:29 | linking in a tagged header makes memory represent the longer list and touches only headers and chunk_head |
| HeapMemory.ChunkUnlinked | mm/malloc.c:85 | unlinking a node makes memory represent the shorter list |
| Malloc.SplitChunk | mm/malloc.c:24-36 | the split, in raw memory, turns the represented list into its Split |
| Malloc.Absorb | mm/malloc.c:84-92 | the merge, in raw memory, turns the represented list into its Merge |
| KernelHeap.Search | mm/malloc.c:21-52 | walking the links finds the first free chunk with size at least the total, or none exactly when there is none |
| KernelHeap.HeaderBytes | include/malloc.h:15-19 | a header in bytes, low byte first: used bit and size, then the nodes of the chunks before and after |
| KernelHeap.GrowHeap | mm/malloc.c:54-69 | growth appends the taken chunk and, when more than a header is left, one for the rest |
| KernelHeap.KernelHeap.constructor | mm/malloc.c:12-15 | malloc_init makes memory represent the empty heap |
| Heaps.TotalCovers | mm/malloc.c:20 | the u32 total covers header and payload exactly when size < 2^32 - 12; for the twelve larger sizes it is below one header, and any free chunk of 12 bytes would serve |
| KernelHeap.KernelHeap.Malloc | mm/malloc.c:18-72 | on raw memory malloc succeeds exactly when 12 + size does not wrap and a free chunk has 12 + size bytes or there are pages; then it is Heaps.Malloc, returns the payload of the block given, and changes no payload byte of any block that stays in use |
| KernelHeap.KernelHeap.Free | mm/malloc.c:74-93 | on raw memory free is Heaps.Free and changes no payload byte of any block that stays in use |
| KernelHeapRuns.RunAll | mm/malloc.c:18-102 | any sequence of malloc, free and stores into blocks in use, on raw memory: the heap is valid after every call and each call has its effect on the heap and on payload bytes |
| KernelHeapRuns.BlockKeepsByte | mm/malloc.c:18-102 | while a block is in use a byte of it changes only by a store to it, whatever is allocated, split, merged and freed around it |
| KernelHeapRuns.LastStoreIsThere | mm/malloc.c:18-102 | the last byte its owner stored is there as long as the block is in use |
| KernelHeap.MergePrevious | mm/malloc.c:81-88 | merges with the previous chunk exactly when both are free and adjacent |
| Slots.FieldsAreIndependent | include/pmm.h:37-41 | writing sign and page_addr sets those fields and leaves the os bits |
| Slots.SlotRoundTrip | mm/swap.c:117-122 | swap_read decodes from the slot the sector swap_out wrote, for all 2^20 pages, including the last, whose offset wraps to 0 |
| Slots.SlotsDisjoint | mm/swap.c:84-92 | sector ranges are disjoint exactly for different pages |
| Slots.SlotNeverPresent | mm/swap.c:122 | a slot is neither present nor empty and determines its page |
| Slots.SlotSeenExactly | mm/vmm.c:183 | the never-mapped test sees a slot exactly when page + 1 is odd or at least 16 |
| SwapDisk.PageRoundTrip | mm/swap.c:48-82 | a page written to eight sectors is read back, and pages in disjoint ranges stay |
| SwapDisk.WordOnDisk | mm/swap.c:48-82 | word i of a page is word i % 128 of the (i / 128)-th sector, written and read |
| SwapDisk.ReadSectors | mm/swap.c:60-63 | the sector loop, on a disk that does not fail, fills exactly one frame with the page |
| SwapDisk.WriteSectors | mm/swap.c:78-81 | the sector loop, on a disk that does not fail, writes exactly the eight sectors |
| SwapLoss.BootInv | entry/entry.c:45-51 | after boot, entries 0 and 768 sharing the kernel's table and absent entries paged, the invariant holds and entry 0 is not paged |
| SwapInvariant.EvictKeeps | mm/swap.c:111-129 | eviction keeps the invariant, empties vm_fifo and changes no page's content |
| SwapInvariant.AllocKeeps | mm/pmm.c:14-50 | alloc_page(1) with its eviction hook yields a frame that is free of any use, and leaves nothing resident |
| SwapInvariant.NewTableKeeps | mm/pmm.c:202-217 | making a page table changes no page and no entry |
| SwapInvariant.MapInv | mm/pmm.c:231-244 | mapping a spare frame on an entry that is not present keeps the invariant; vm_fifo then holds just that frame |
| SwapInvariant.SwapInKeeps | mm/swap.c:95-109 | swap_in makes the page present with its old content and changes no other page |
| SwapInvariant.FaultKeeps | mm/vmm.c:181-194 | a fault keeps the invariant and every other page; the faulting page holds what it held, or its frame's content if it looks never mapped |
| SwapInvariant.FaultEntry | mm/vmm.c:179-193 | the entry a fault leaves: its frame, sign 5 if the page looked never mapped and 7 if it was swapped in, os bits as before; a new table is behind sign 7 |
| SwapRuns.StepRefines | mm/vmm.c:169-196 | an access to a page that is not forgotten is the access on flat memory |
| SwapRuns.AccessRefinesExactly | mm/vmm.c:183-194 | an access agrees with flat memory exactly when its page is not forgotten, or the new frame held the same by chance but for the word stored |
| SwapRuns.InvInEveryRun | mm/swap.c:99-127 | residency in every state of every run: vm_fifo is exactly the present pages, one frame each, at most one |
| SwapLoss.BootedRunRefines | mm/vmm.c:169-196 | every run of accesses of the booted kernel is a run of flat memory |
| SwapRuns.KernelRunRefines | mm/vmm.c:169-196 | the same for every paged range without directory entry 0 |
| SwapRuns.KernelLastStoreIsRead | mm/vmm.c:169-196 | there a stored word is in its page until the next store to it, whatever is evicted in between |
| SwapRuns.RunRefines | mm/vmm.c:169-196 | with entry 0 paged too, every run of accesses to pages whose slots are seen is a run of flat memory |
| SwapRuns.LastStoreIsRead | mm/vmm.c:169-196 | and a stored word is there until the next store to it |
| SwapLoss.AnotherPageForgets | mm/swap.c:111-129 | with entry 0 paged, any access to another page leaves a touched page of the seven forgotten |
| SwapLoss.PageLost | mm/vmm.c:183 | from a directory with entry 0 absent and paged, which boot does not leave: store 7 to page 1, load page 2, load page 1; the load gives 0 |
| Paging.PermitsInNumbers | mm/vmm.c:176-177 | a store is refused exactly for flags % 4 < 2, a load exactly for flags with neither 1 nor 4, for all flags |
| Paging.AddressSpace.FindVma | mm/vmm.c:59-72 | the cached lookup finds the region containing the address exactly if there is one, whatever the cache held |
| Paging.AddressSpace.SwapOut | mm/swap.c:111-129 | the in-place loop, for n = 1, is Swap.Evict |
| Paging.AddressSpace.AllocPage | mm/pmm.c:14-50 | the in-place function is Swap.Alloc, or fails exactly when no frame is free |
| Paging.AddressSpace.GetPte | mm/pmm.c:202-217 | the in-place function makes the missing table, or fails exactly when it is missing and no frame is free |
| Paging.AddressSpace.Map | mm/pmm.c:231-244 | on an entry that is not present the in-place function is Swap.MapPage |
| Paging.AddressSpace.BringIn | mm/swap.c:95-109 | the in-place function is Swap.SwapIn, or stops exactly when no frame is free |
| Paging.AddressSpace.DoSwap | mm/vmm.c:169-196 | the outcome (no region, no permission, no frame, served), each with its exact cause (a store is refused exactly in a region with flags % 4 < 2, a load exactly in one with neither 1 nor 4); when served, the fault of the model with its content guarantee |
| Paging.AddressSpace.Access | mm/vmm.c:169-196 | a load or store on the object is the step of SwapRuns and loads give the content; it is served exactly when its page is present, or the region's flags have 2 for a store, 1 or 4 for a load, and there are frames |
| Paging.AddressSpace.RunAll | mm/vmm.c:169-196 | any sequence of loads and stores on the object is a run of SwapRuns, up to the first that cannot be served; no access faults a page in whose region's flags forbid it |
| ProcTree.ForkKeeps | schedule/process/proc.c:220-228 | fork keeps the tree and puts the child at the head of its parent's list |
| ProcTree.AdoptKeeps | schedule/process/proc.c:272-284 | one turn of the reparent loop keeps the tree and moves the youngest child to the head of init's list |
| ProcTree.RecycleKeeps | schedule/process/proc.c:102-107 | recycling a process without children keeps the tree and takes it out of its parent's list |
| ProcTree.ForkInPlace | schedule/process/proc.c:220-228 | the in-place link part does that |
| ProcTree.SendChildrenToInit | schedule/process/proc.c:265-285 | the loop ends; init's list is the reverse of the dying process's children followed by init's old children; parent and sibling pointers change at those children only, cptr at the two parents only |
| ProcTree.RecycleChild | schedule/process/proc.c:102-107 | the in-place link part does that |
| PagePointers.AliasesAgree | mm/pmm.c:178-187 | for frames below 30000 both forms of the page pointer give the same addresses, whatever quotient the pointer subtraction yields |
| PagePointers.RoundTrip | mm/pmm.c:190-199 | from either form to an address and back gives the pointer without 0xC0000000 |
| PagePointers.AddressesDiffer | mm/pmm.c:184-187 | different frames have different addresses |
| PagePointers.QuotientExists | mm/pmm.c:43 | the aliased pointer has such a quotient, i + 2^27 |

## Left out

- Semaphore values are unbounded; 32-bit overflow of `value`, `next_count` and `x_count` needs 2^31 processes.
- The set of processes is fixed in the monitor and buffer models; idle is not among them, so whether `schedule` falls back to idle is seen in Scheduler only.
- Semaphore queues, vm_fifo and the region list are sequences there; the circular list itself is proved once, in Lists, and used in raw memory for the heap.
- Condition variables do not hold the back pointer `cond->monitor`; a condition is its index.
- Interrupts: registers, stacks and page directories in switch_to; other interrupts than the timer; a process that exits.
- Interrupts: schedule may choose any runnable process there, so in Switches and Realization too; which one the list gives is Scheduler.
- Interrupts.ReturnRestoresIntr: speaks of calls made and interrupts taken while processes exist, so the early return of schedule cannot occur.
- Preemption: a statement of client code that is not a P or V is one step; in the monitor only the owner runs such statements on shared counters, and in the semaphore version the holder of the lock, but for the test of buffer_s, a single read.
- KernelHeap.KernelHeap.Malloc: where 12 + size wraps in 32 bits or alloc_page has no pages the source goes on and writes a header where it has no room; the model stops with nothing changed. Pages given are fresh and below 4 GiB.
- KernelHeap.KernelHeap.Free: requires a block in use; the source checks nothing, and never gives pages back.
- The heap's own single-page growth also triggers swap_out; pages of the heap are not in the paged range, so the two are modelled apart.
- Swap: bits of an entry that the processor sets (accessed, dirty), TLB invalidation, reference counts and protection faults.
- Swap: the free list inside alloc_page and free_page is a set of free frames; which frame is handed out is any of them.
- Swap: one address space, distinct page tables behind the paged directory entries. Boot lets entry 0 share the kernel's table (entry/entry.c:45-49); the paged range must not hold two such entries.
- Paging.AddressSpace.SwapOut: n is 1, as at its only call; the cursor of larger n skips entries.
- Paging.AddressSpace.Map: not on an entry that is already present, which nothing on this path does.
- Paging.AddressSpace.BringIn: without a free frame the source goes on through a null page; the model stops.
- SwapDisk.ReadSectors: the early return on a disk error, and a disk smaller than the 4 GiB the slots name.
- SwapDisk.WriteSectors: the same.
- Paging: create_vma; regions are given and disjoint.
- Paging.AddressSpace.DoSwap: where get_pte gets no frame the source goes on through a null pointer; the model stops with OutOfMemory.
- Paging works on 32-bit words of frames and sectors; stores of single bytes are not modelled.
- ProcTree: wake-ups of waiting parents, pids, stacks and the process list. Stores through a null sibling pointer go nowhere. init exists and is not the exiting process.
- ProcTree.RecycleChild: requires that the process has no children left, as after send_chld_to_init.
- copy_mm, delete_mm, waitpid, execve, the pid bitmap, strings, printing, boot, devices and traps: easy beside the rest, or outside any property above.
