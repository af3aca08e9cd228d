# LamiaAtrium memory and scheduling, modelled and proved in Dafny

LamiaAtrium is a small operating-system simulator. Its processes live in 57-bit virtual address spaces whose
five-level page tables are bytes of one shared physical memory; its CPUs, loader and timer are threads that meet in a
hand-built barrier at every time slot and share a multi-level ready queue. This project models both halves and a
smaller third one, and proves what they keep over whole runs. `dafny verify dfyconfig.toml` checks everything.

**Memory.** Page tables are read straight out of the byte memory (`PageTable`), so that the proofs are about bytes, not
about an idealised tree. A path names a table by the frame of its process's top directory, its level and its index
bits. *Well-formed memory* - each frame in use reached by one path and not free, free frames listed once and all zero
- is kept by `pte_set_fpn` (`PageTableUpdate`), `vm_map_ram` (`MapRam`) and `init_mm`. With it the bytes refine address
spaces that know nothing of bytes (`PageMap`): over any run of any number of processes, failed mappings included,
abstraction commutes with every operation (`ProcessRuns`), while the frames stay partitioned into free ones and ones in
use (`FrameConservation`). The zeroes matter: new intermediate tables are never cleared. `Paging` and `PhysicalMemory`
hold the C functions themselves as methods on the device, each proved to compute the model's function; `BitFields`
proves on 64-bit words that the masks and shifts of the headers are the divisions and remainders the other modules use.

**Scheduling.** `Queue` and `Scheduler` hold queue.c and sched.c as classes over arrays; `SchedulerPolicy` is what they
compute, with fair share and bounded waiting proved over all runs. `SlotBarrier` is timer.c as an interleaved transition
system in which each critical section is one step and each condition wait a guard. `Machine` puts timer, CPUs, loader
and scheduler together, and `MachineRuns` proves what every reachable state of that system satisfies, for any number of
CPUs, any quantum, any programs and any start times. `MachineProgress` bounds the slots it takes to finish all work, and
`MachineClock` the steps a slot can take, so that every run of a stated length has finished all work, with no assumption
on how the threads are scheduled. `MachineTurns` counts how often processes leave the ready queues, `MachineStops` which
CPUs stop.

**Regions and pages.** `Regions` (first-fit allocation in a linked list of free regions) and `FifoPages` (the list that
picks victim pages) are heap-shaped code proved against operations on sequences.

## What the code relies on

These are preconditions or readings of the code, as the contracts state them.

- `BYTE` is plain `char` (os-mm.h:31) and entries are assembled from it by shifting, so a byte is modelled as an octet:
  a platform on which plain `char` is unsigned, which ISO/IEC 9899:2011 leaves to the implementation (section 6.2.5).
- Page-table frames have a stride of 4096 bytes while `MEMPHY_format` counts frames of 256. Where a frame may become a
  table the contracts require it to lie inside the memory at the larger stride (`Backed`, `FramesReady`, `RunReady`) and
  frame numbers to fit thirteen bits. `__swap_cp_page` uses the smaller stride; the two are not mixed in one memory.
- Page numbers enter the tables by their low 45 bits; two page numbers that agree on those are one page.
- Ready queues hold 50 processes, so at most 50 processes are added to the machine; priorities are below 140, the
  quantum is at least 1 and programs have at least one instruction.
- Allocation sizes arrive as `int` values that are not negative, the break is a value an `int` holds (libmem.c:98; it is
  0 throughout) and regions end within the 57-bit bus; the sums the first-fit search compares wrap around at 64 bits, as
  `addr_t` does.
- `vmap_page_range` multiplies the number of pages by the page size as two `int`s (mm64.c:644): the region it reports
  ends where the contract says for fewer than 2^19 pages.
- A process handle (`Proc`) stands for the pointer to its control block and never changes; its program counter lives in
  the machine's state.

## Where the code fails its purpose

`vm_map_ram` that fails while mapping returns all its frames, also those already entered in the page table.
`MapRam.MappingFailure` proves for all inputs when this does no harm - if and only if not even the first page could get
its tables - and `FailureCases.LeakHappens` is a run that leaves page 511 mapped to a free frame. What such a failure
never harms is the tables and pages of other processes: isolation and refinement hold over runs that contain it.
Mapping a page that is mapped already loses its old frame, and that is the only way a successful `vm_map_ram` loses one:
`FrameConservation.MapRamConserves`, with the run `FailureCases.FrameLost`. Allocating into a symbol that is still in use
loses the bytes it holds, unless nothing fits and growth hands them all out to it again: `Regions.ReuseLosesBytes` for
all inputs, with the run `Regions.BytesLost`. An allocation that nothing fits hands out the bytes from the break up,
which is right if and only if none of them is free or held by another symbol (`Regions.GrowthOverlaps`); as the break
never moves, a process that has grown once grows safely no more, except into the symbol that holds byte 0
(`Regions.GrowsOnce`, with the run `Regions.SymbolsCollide`).

A CPU that finds the ready queues empty at the top of its loop waits for the next slot without looking at `done`, so the
simulator need not end although all work does. `MachineStops.StopsExactly` says which CPUs stop: once everything is
done, those that hold a process or have just let one go, and no others; with no processes at all none ever does
(`MachineStops.NeverStops`). When every CPU and the loader have left, the timer does too (`SlotBarrier.TimerExits`).

## Model

| member | source | states |
|---|---|---|
| BitFields.FieldIs | os_lamiaatrium/include/mm64.h:11-12 | For every pair of bits, the field GENMASK64 selects, shifted down, is the address divided by the weight of the low bit, modulo the weight of the field's width |
| BitFields.FieldsAreIndices | os_lamiaatrium/include/mm64.h:43-56 | The five PAGING64_ADDR macros compute the five indices the walks use, on every 64-bit address |
| BitFields.ShiftIsPageAddress | os_lamiaatrium/src/mm64.c:94-99 | Shifting a page number up by twelve bits in a 64-bit word gives its address, bits beyond the word lost |
| BitFields.Down | os_lamiaatrium/include/mm64.h:43-56 | Shifting a word down by any number of bits is division by that power of two |
| BitFields.Kept | os_lamiaatrium/src/mm64.c:1321 | Masking a word with its lowest ones is the remainder by that power of two |
| BitFields.Joined | os_lamiaatrium/src/mm64.c:1265 | OR-ing words that share no bit adds the numbers they denote |
| BitFields.SetBitIs | os_lamiaatrium/include/mm.h:73 | SETBIT adds the weight of its bit exactly when the bit was clear |
| BitFields.ClrBitIs | os_lamiaatrium/include/mm.h:74 | CLRBIT of a 32-bit entry takes the weight of its bit away exactly when the bit was set, the mask's complement being only 32 bits wide |
| BitFields.SetValIs | os_lamiaatrium/include/mm.h:76 | SETVAL of the frame field replaces the low thirteen bits of a 32-bit entry by those of the value and keeps the rest |
| BitFields.TestsAreFields | os_lamiaatrium/include/mm.h:28 | The test of the present mask and the mask 0x1FFF read the present flag and the frame number off an entry |
| BitFields.TableWordIs | os_lamiaatrium/src/mm64.c:162-164 | The entry the macros build for a new table is the table entry of the page-table model |
| BitFields.OnlineWordIs | os_lamiaatrium/src/mm64.c:249-252 | The entry the macros write over an old page entry is the online entry of the page-table model |
| BitFields.StoredByte | os_lamiaatrium/src/mm64.c:254-258 | The bytes the store loop cuts out of an entry are its base-256 digits |
| BitFields.LoadedByte | os_lamiaatrium/src/mm64.c:1260-1268 | One turn of the load loop adds the next byte at its weight, without disturbing those already read |
| PageTable.EntryBits | os_lamiaatrium/src/mm64.c:249-252 | Entries written for tables and for pages are present, name the frame given (modulo thirteen bits) and, for pages, are not swapped |
| PageTable.ReadBack | os_lamiaatrium/src/mm64.c:1260-1268 | An entry written byte by byte, lowest byte first, reads back as it was, and no byte outside its four changes |
| PageTable.SlotAfterPut | os_lamiaatrium/src/mm64.c:254-258 | Writing one entry changes no other entry of any table frame |
| PageTable.EmptyDirectory | os_lamiaatrium/src/mm64.c:973-977 | A directory whose frame holds zeroes leads nowhere and maps no page |
| PageTable.EntAfterPut | os_lamiaatrium/src/mm64.c:168-172 | The write lemma: in well-formed memory one entry written changes what one path reads, of all paths of all processes |
| PageTableUpdate.TableGained | os_lamiaatrium/src/mm64.c:156-173 | Recording a free frame at a missing entry adds exactly one path to a table |
| PageTableUpdate.GainedWellFormed | os_lamiaatrium/src/mm64.c:156-173 | After a table is taken from the free list every table frame is still reached by one path, is not free, and free frames still hold zeroes, although the new table is never cleared |
| PageTableUpdate.EnsureTableGrows | os_lamiaatrium/src/mm64.c:156-173 | One level of the walk: the table is there afterwards, and exactly one frame was spent if it was missing; or no frame was free and nothing changed |
| PageTableUpdate.DescendGrows | os_lamiaatrium/src/mm64.c:150-232 | All four levels: tables made and frames spent balance, no page entry changes, memory stays well formed, whether or not frames run out |
| PageTableUpdate.PageWritten | os_lamiaatrium/src/mm64.c:235-258 | Writing the last-level entry changes one page entry and no table |
| PageTableUpdate.PageWrittenWellFormed | os_lamiaatrium/src/mm64.c:235-258 | Pointing a page at a frame nobody uses keeps memory well formed, page frames included |
| PageTableUpdate.SetFpnInWindow | os_lamiaatrium/src/mm64.c:145-262 | One pte_set_fpn within any window of pages: one entry changes on success, none on failure, and frames balance the tables the window still lacks |
| PageTableUpdate.SetFpnRefinesMap | os_lamiaatrium/src/mm64.c:145-262 | pte_set_fpn is assignment in a map from pages to entries: it succeeds if and only if the free list can supply the missing tables, spends exactly those from its head, changes that one entry of all pages of all processes, and leaves every entry alone on failure |
| PageTableUpdate.SetFpnTranslates | os_lamiaatrium/src/mm64.c:1288-1329 | After a successful pte_set_fpn every address of the page translates to the frame at the same offset |
| MapRam.AllocKeeps | os_lamiaatrium/src/mm64.c:720-767 | Frames taken for pages come off the head of the free list, are distinct and zero, and belong to nobody; memory stays well formed |
| MapRam.FreeFramesKeeps | os_lamiaatrium/src/mm64.c:820-829 | Returning frames in hand keeps memory well formed, puts exactly them back, the last first, in front of those that were free, and changes no byte |
| MapRam.VmapMaps | os_lamiaatrium/src/mm64.c:632-669 | Mapping pages, with any number of pages and of frames given: the first pages up to the count returned take the frames in order, no other entry changes, and the pages are pushed on the page list in order |
| MapRam.NoneMissing | os_lamiaatrium/src/mm64.c:150-232 | Pages whose last tables are all there lack no table at any level |
| MapRam.MissingBound | os_lamiaatrium/src/mm64.c:150-232 | k consecutive pages lack at most (k + 512^j - 2) / 512^j + 1 tables at the j-th level up, over all four levels |
| MapRam.MappingPhase | os_lamiaatrium/src/mm64.c:866-874 | The mapping phase maps all its pages if and only if the frames left after allocation cover the tables missing |
| MapRam.MapRamRefines | os_lamiaatrium/src/mm64.c:839-877 | vm_map_ram succeeds if and only if the free list holds a frame per page and per missing table; then each page has its own frame in order, nothing else changed and the frames came off the head of the list |
| MapRam.MapRamSucceeds | os_lamiaatrium/src/mm64.c:839-877 | A free list with a frame per page and the greatest number of tables the pages can span is always enough |
| MapRam.MapRamAnyOutcome | os_lamiaatrium/src/mm64.c:839-877 | Whatever vm_map_ram comes to - success or either failure - the tables of all processes stay in order, the pages entered took their frames and are on the page list, and no other page entry of any process changes |
| MapRam.AllocationFailure | os_lamiaatrium/src/mm64.c:858-864 | Running out of frames while allocating changes no byte and leaves the same frames free, in reverse order |
| MapRam.MappingFailure | os_lamiaatrium/src/mm64.c:866-874 | A failure in the mapping phase leaves memory well formed if and only if not even the first page could get its tables, and then no page entry changed; otherwise the first page still names a frame that is back on the free list |
| ProcessRuns.NewDirectoryKeeps | os_lamiaatrium/src/mm64.c:960-977 | A new address space maps nothing, shares no table with another, and changes no entry of any process |
| ProcessRuns.NewDirectoryClears | os_lamiaatrium/src/mm64.c:960-977 | A new directory is empty whatever its frame held, and no byte outside the frame changes |
| PageMap.MapPagesElsewhere | os_lamiaatrium/src/mm64.c:839-877 | On address spaces without bytes, mapping pages of one process touches no table and no entry of another, whatever it comes to |
| ProcessRuns.SetFpnAbs | os_lamiaatrium/src/mm64.c:145-262 | The bytes after pte_set_fpn stand for the address spaces after assigning that page, on success and on failure |
| ProcessRuns.MapRamAbs | os_lamiaatrium/src/mm64.c:839-877 | The bytes after vm_map_ram stand for the address spaces after mapping those pages, in all three outcomes |
| ProcessRuns.NewDirectoryAbs | os_lamiaatrium/src/mm64.c:960-977 | The bytes after init_mm stand for the address spaces with one more, empty |
| ProcessRuns.StepAbs | os_lamiaatrium/src/mm64.c:145-262 | Abstraction commutes with every operation, failed mappings included |
| ProcessRuns.StepKeeps | os_lamiaatrium/src/mm64.c:839-877 | Every allowed operation keeps memory well formed: tables whatever mappings come to, page frames unless a mapping gives up after its first page |
| ProcessRuns.RunRefinesMap | os_lamiaatrium/src/mm64.c:145-262 | Over any run, new processes and failed mappings included, the bytes stand for exactly the tables, entries and free frames that the same run makes on address spaces without bytes |
| ProcessRuns.FreshRefinesMap | os_lamiaatrium/src/mm64.c:145-262 | From a fresh memory: every page of every process reads as its entry in the address spaces run alongside, its tables are those it has there, and the same frames are free |
| ProcessRuns.OthersLeaveAlone | os_lamiaatrium/src/mm64.c:145-262 | Whatever other processes do, however long, mappings that fail included, every page entry of a process stays as it was |
| ProcessRuns.TablesUnshared | os_lamiaatrium/src/mm64.c:960-977 | After any run from a fresh memory, mappings that fail included, no two processes share a table frame |
| ProcessRuns.FreshWellFormed | os_lamiaatrium/src/mm-memphy.c:195-209 | In the memory init_memphy makes the free frames are listed once each and hold zeroes |
| ProcessRuns.TranslationInjective | os_lamiaatrium/src/mm64.c:1288-1329 | From a fresh memory, after any run of mappings by any processes, different addresses that translate have different physical addresses, none inside a table frame |
| FrameConservation.SetFpnSpends | os_lamiaatrium/src/mm64.c:145-262 | Whether pte_set_fpn succeeds or runs out, each frame it takes off the free list is a table of some process afterwards |
| FrameConservation.VmapSpends | os_lamiaatrium/src/mm64.c:632-669 | The same for a run of pages, however far it gets |
| FrameConservation.MapRamConserves | os_lamiaatrium/src/mm64.c:839-877 | A successful vm_map_ram keeps the frames that are free or in use, all told, if and only if none of its pages was mapped before |
| FrameConservation.Orphaned | os_lamiaatrium/src/mm64.c:249-252 | The old frame of a page mapped again is neither free nor in use afterwards |
| FrameConservation.HarmlessConserves | os_lamiaatrium/src/mm64.c:866-874 | A mapping that gives up before its first page keeps the frames that are free or in use |
| FrameConservation.RunConserves | os_lamiaatrium/src/mm64.c:839-877 | Any run of new address spaces and first mappings, successful or harmlessly failed, keeps the frames that are free or in use |
| FrameConservation.FramesPartitioned | os_lamiaatrium/src/mm64.c:839-877 | From a fresh memory, after any such run, each frame below maxsz/256 is free or reached by exactly one path of one process, never both, and no other number is either |
| FailureCases.LeakHappens | os_lamiaatrium/src/mm64.c:866-874 | From a fresh memory of nine table frames, one process that mapped 137 pages asks for two more: vm_map_ram fails with page 511 mapped to frame 142 and frame 142 free |
| FailureCases.FrameLost | os_lamiaatrium/src/mm64.c:249-252 | From the same memory, mapping page 0 twice leaves its first frame neither free nor in use |
| PhysicalMemory.MemPhy.constructor | os_lamiaatrium/src/mm-memphy.c:195-209 | A new device is zero and its free list is 0, 1, ..., maxsz/256 - 1 |
| PhysicalMemory.MemPhy.Format | os_lamiaatrium/src/mm-memphy.c:125-151 | The list loop builds the frame numbers in ascending order, or reports an empty device |
| PhysicalMemory.MemPhy.Read | os_lamiaatrium/src/mm-memphy.c:68-79 | The byte at an address |
| PhysicalMemory.MemPhy.Write | os_lamiaatrium/src/mm-memphy.c:108-119 | One byte changes |
| PhysicalMemory.MemPhy.GetFreeFp | os_lamiaatrium/src/mm-memphy.c:153-169 | The head of the free list is handed out, or the list is empty and nothing changes |
| PhysicalMemory.MemPhy.PutFreeFp | os_lamiaatrium/src/mm-memphy.c:179-190 | A frame goes to the head of the free list |
| PhysicalMemory.FramesConserved | os_lamiaatrium/src/mm-memphy.c:153-190 | Over any run of gets and of returns of frames handed out, free and handed-out frames partition the frame numbers, without duplicates |
| PhysicalMemory.FreshPool | os_lamiaatrium/src/mm-memphy.c:125-151 | From a fresh device that partition holds throughout, and every frame handed out lies inside the device |
| PhysicalMemory.SwapCpPage | os_lamiaatrium/src/mm64.c:937-953 | Byte by byte, the destination frame then holds what the source frame held, and every other byte of the destination is as it was, also within one device |
| PhysicalMemory.SwapRoundTrip | os_lamiaatrium/src/mm64.c:937-953 | Copying a frame out and back restores it and changes no byte outside the destination frames |
| Paging.IndicesOfAddress | os_lamiaatrium/src/mm64.c:71-83 | The five indices of an address are the index bits of its page, level by level |
| Paging.KeyOfPageAddress | os_lamiaatrium/src/mm64.c:94-99 | A page number and its 64-bit address agree on the 45 bits the indices use |
| Paging.Get32BitEntry | os_lamiaatrium/src/mm64.c:1260-1268 | The read loop yields the little-endian word at an address |
| Paging.PutEntry | os_lamiaatrium/src/mm64.c:254-258 | The write loop stores the little-endian word at an address |
| Paging.WalkToTable | os_lamiaatrium/src/mm64.c:1288-1317 | The read-only walk reaches the page's last table if all its tables are present, and stops otherwise |
| Paging.TranslateAddress | os_lamiaatrium/src/mm64.c:1288-1329 | The physical address is the frame the page is mapped to and the offset, or there is none |
| Paging.GetPteAddress | os_lamiaatrium/src/mm64.c:1331-1364 | The address of a page's entry, or failure if a table is missing |
| Paging.PteGetEntry | os_lamiaatrium/src/mm64.c:545-576 | The entry of a page, 0 if its tables do not exist |
| Paging.PteSetEntry | os_lamiaatrium/src/mm64.c:583-606 | Overwrites the entry of a page if its tables exist, and otherwise changes nothing |
| Paging.EnsureTableAt | os_lamiaatrium/src/mm64.c:156-175 | One level of pte_set_fpn in place, including the frame it spends |
| Paging.MakeTables | os_lamiaatrium/src/mm64.c:150-235 | The four levels of pte_set_fpn in place |
| Paging.SetFpn | os_lamiaatrium/src/mm64.c:145-262 | pte_set_fpn in place computes the model's pte_set_fpn, bytes, free list and result |
| Paging.AllocPagesRange | os_lamiaatrium/src/mm64.c:720-767 | The allocation loop in place |
| Paging.FreeFrameList | os_lamiaatrium/src/mm64.c:820-829 | The release loop in place |
| Paging.VmapPageRange | os_lamiaatrium/src/mm64.c:632-669 | The mapping loop in place, with the number of pages mapped and the region reported |
| Paging.MapRamRange | os_lamiaatrium/src/mm64.c:839-877 | vm_map_ram in place computes the model's vm_map_ram and reports the region mapped |
| Paging.InitMm | os_lamiaatrium/src/mm64.c:960-1029 | init_mm in place: the directory frame is taken and cleared and the page list emptied, or memory is unchanged and the call fails |
| Queue.FirstBestUnique | os_lamiaatrium/src/queue.c:33-57 | The first process of least priority value is at one position only |
| Queue.PurgedAt | os_lamiaatrium/src/queue.c:82-93 | Shifting the rest down over the first occurrence removes that one element |
| Queue.PurgedAbsent | os_lamiaatrium/src/queue.c:82-96 | A queue without the process stays as it is |
| Queue.PurgedOthers | os_lamiaatrium/src/queue.c:74-97 | Purging a duplicate-free queue leaves exactly the others, each once |
| Queue.ProcQueue.Enqueue | os_lamiaatrium/src/queue.c:12-23 | The process joins the end, unless 50 are there |
| Queue.ProcQueue.ShiftOut | os_lamiaatrium/src/queue.c:62-69 | The shift loop removes one element and keeps the order of the rest |
| Queue.ProcQueue.Dequeue | os_lamiaatrium/src/queue.c:25-72 | The first process of least priority value leaves the queue, the others keep their order; an empty queue yields none |
| Queue.ProcQueue.PurgeQueue | os_lamiaatrium/src/queue.c:74-97 | The first occurrence of the process leaves the queue, if there is one |
| SchedulerPolicy.SearchTwice | os_lamiaatrium/src/sched.c:89-115 | The search over the slots left, repeated after a reset if it finds nothing, picks the priority the policy chooses |
| SchedulerPolicy.GetAnswers | os_lamiaatrium/src/sched.c:82-87 | get_mlq_proc returns NULL exactly when all 140 queues are empty, and then changes nothing |
| SchedulerPolicy.FrontServed | os_lamiaatrium/src/sched.c:117-133 | In a sound state a get serves the front of the chosen queue |
| SchedulerPolicy.UrgentFirst | os_lamiaatrium/src/sched.c:64-137 | Whoever a get serves, every more urgent priority is empty, or out of slots while a less urgent one has a process and a slot |
| SchedulerPolicy.GetSound | os_lamiaatrium/src/sched.c:64-137 | Gets keep every slot count within 0..140-p and every queue to its own priority |
| SchedulerPolicy.PutSound | os_lamiaatrium/src/sched.c:140-174 | Puts and adds keep the same |
| SchedulerPolicy.SlotsAccount | os_lamiaatrium/src/sched.c:89-133 | Between resets, processes served and slots left of a priority always sum to the slots it had |
| SchedulerPolicy.FairShare | os_lamiaatrium/src/sched.c:100-133 | From one reset to the next queue p is served at most 140-p times, and exactly 140-p times if it is non-empty at the closing reset |
| SchedulerPolicy.FairShareFromStart | os_lamiaatrium/src/sched.c:31-52 | From init_scheduler to the first reset, whatever joins: priority p is served at most 140 - p times, and exactly that often if it has a process waiting when the reset comes |
| SchedulerPolicy.FullSlotsSum | os_lamiaatrium/src/sched.c:45-48 | One round holds 9870 slots |
| SchedulerPolicy.GetShortensWait | os_lamiaatrium/src/sched.c:64-137 | Every get that does not serve the waiting process lowers its measure |
| SchedulerPolicy.ServedInTime | os_lamiaatrium/src/sched.c:64-137 | A waiting process is among the next processes served, as many as its measure says, under any interleaving of joins |
| SchedulerPolicy.BoundedWaiting | os_lamiaatrium/src/sched.c:64-137 | The process at index k of queue p is among the next 9870 * (1 + ceil((k+1)/(140-p))) processes served |
| Scheduler.MlqScheduler.FreshQueues | os_lamiaatrium/src/sched.c:44-48 | The loop of init_scheduler makes 140 empty queues and full slots |
| Scheduler.MlqScheduler.constructor | os_lamiaatrium/src/sched.c:41-55 | The initial scheduler state |
| Scheduler.MlqScheduler.QueueEmpty | os_lamiaatrium/src/sched.c:28-39 | True exactly when every queue is empty |
| Scheduler.MlqScheduler.FindPrio | os_lamiaatrium/src/sched.c:90-98 | The least priority value with a process and a slot, or -1 |
| Scheduler.MlqScheduler.ChoosePrio | os_lamiaatrium/src/sched.c:89-115 | Both searches and the reset between them, in place |
| Scheduler.MlqScheduler.TakeFrom | os_lamiaatrium/src/sched.c:117-133 | The chosen queue gives up its process, its slot count falls, the process joins the running list |
| Scheduler.MlqScheduler.GetMlqProc | os_lamiaatrium/src/sched.c:64-137 | get_mlq_proc in place computes the policy's get on the abstract state |
| Scheduler.MlqScheduler.PutMlqProc | os_lamiaatrium/src/sched.c:140-174 | put_mlq_proc and add_mlq_proc in place compute the policy's put |
| SlotBarrier.NextInv | os_lamiaatrium/src/timer.c:21-77 | The barrier invariant is kept by every step of the timer and of any number of devices |
| SlotBarrier.RunInv | os_lamiaatrium/src/timer.c:21-77 | The invariant holds after every run |
| SlotBarrier.BarrierSafety | os_lamiaatrium/src/timer.c:21-77 | No device is let into a slot before every live device has ended the one before; slots of live devices differ by at most one |
| SlotBarrier.ClockStability | os_lamiaatrium/src/timer.c:45-56 | The clock equals a working device's releases and slots ended, and no enabled step moves it while a device works |
| SlotBarrier.ArrivalStands | os_lamiaatrium/src/timer.c:48-54 | A recorded arrival is taken back only by the timer's release pass, at that device |
| SlotBarrier.TickNeedsAll | os_lamiaatrium/src/timer.c:29-46 | Each tick follows an arrival in that very slot of every device still attached |
| SlotBarrier.NeverStuck | os_lamiaatrium/src/timer.c:21-77 | Until the timer is gone some step other than stopping it is enabled |
| SlotBarrier.TimerLeavesLast | os_lamiaatrium/src/timer.c:55-57 | The timer exits only when every device is detached |
| SlotBarrier.ExitsWhenFinished | os_lamiaatrium/src/timer.c:23-58 | Whenever the timer has looked at all devices, the pass it is in ends with the timer gone if and only if all of them were detached then, however devices move meanwhile |
| SlotBarrier.TimerExits | os_lamiaatrium/src/timer.c:23-58 | With all n devices detached, no run ticks more than 3n + 4 times again; from the head of its loop, unless stopped, the timer is gone as finished after 2n + 3 ticks and one slot |
| Machine.TakePlaced | os_lamiaatrium/src/sched.c:64-137 | A get moves one process from the front of its ready queue into one CPU's hands and drops nothing |
| Machine.JoinPlaced | os_lamiaatrium/src/sched.c:140-174 | A process that joins is in its ready queue once and nowhere else |
| Machine.CpuPlaced | os_lamiaatrium/src/os.c:55-100 | Each step of a CPU keeps every added process in exactly one place |
| Machine.LoaderPlaced | os_lamiaatrium/src/os.c:110-139 | Each step of the loader keeps every added process in exactly one place |
| MachineRuns.NextInv | os_lamiaatrium/src/os.c:49-146 | The invariant of the whole machine is kept by every step of timer, CPUs and loader |
| MachineRuns.RunInv | os_lamiaatrium/src/os.c:49-146 | The invariant holds after every run |
| MachineRuns.ExclusiveDispatch | os_lamiaatrium/src/os.c:55-100 | An unfinished added process is in the one ready queue of its priority or held by exactly one CPU; none is in two queues, twice in one, held twice, or both |
| MachineRuns.NothingDropped | os_lamiaatrium/src/queue.c:18-22 | No enqueue of any run drops a process: whoever joins stands at the end of its queue, and whoever a CPU gets leaves the front of its queue and stands at the end of the running list |
| MachineRuns.RunAccounted | os_lamiaatrium/src/os.c:88-98 | Dispatching, running and counting down keep instructions run and time left equal to the quantum times the dispatches |
| MachineRuns.DispatchAccounting | os_lamiaatrium/src/os.c:55-100 | A finished process of n instructions was dispatched exactly ceil(n / time_slot) times, on whatever CPUs; a waiting one has used up its quanta, a held one has the rest left |
| MachineTurns.StepOwed | os_lamiaatrium/src/os.c:55-100 | Every step of any thread: a process is owed one more run exactly when the step takes it out of its ready queue into a CPU's hands |
| MachineTurns.GetsAccount | os_lamiaatrium/src/os.c:72-94 | Preemption, over any run: a process left its ready queue once per dispatch and once more if just taken; it ran at most a quantum for each time; one that waits used up every quantum it got, and one that finished its n instructions left the queue exactly ceil(n / time_slot) times |
| MachineTurns.TurnsBounded | os_lamiaatrium/src/os.c:72-94 | Over any stretch of any run a process that starts in its ready queue runs at most a quantum for each time it leaves it |
| MachineRuns.NoTimeLeftOver | os_lamiaatrium/src/os.c:52-71 | A CPU that holds no process has no time left over |
| MachineRuns.RunAdvances | os_lamiaatrium/src/cpu.c:61-70 | Every call of run advances the program counter of its process by one, and no other |
| MachineRuns.AddSlotIsMax | os_lamiaatrium/src/os.c:116-140 | The loader's slot for a process is the greatest of the start times up to it, each plus the processes still to come |
| MachineRuns.LoaderTiming | os_lamiaatrium/src/os.c:116-140 | In every reachable state process j was added in slot max over i <= j of (start[i] + (j - i)) |
| MachineRuns.AdditionsRecorded | os_lamiaatrium/src/os.c:136-140 | The recorded slot of an addition is what the clock shows at the step that adds, and no other step adds |
| MachineRuns.NoAbandonedWork | os_lamiaatrium/src/os.c:80-84 | While a process of the machine is unfinished, or still to be added, some CPU has not stopped and is not about to |
| MachineRuns.StopsAfterLastAdd | os_lamiaatrium/src/os.c:136-143 | A CPU that stops last asked for a process in a slot after the one of the last addition |
| MachineRuns.MachineNeverStuck | os_lamiaatrium/src/os.c:49-146 | Until the timer is gone some step of timer, CPUs or loader is enabled |
| MachineProgress.SomeoneRan | os_lamiaatrium/src/os.c:55-100 | When a slot after the last addition ends with work left, some CPU that had its turn in that slot holds a process, so it ran an instruction |
| MachineProgress.NextPaced | os_lamiaatrium/src/os.c:55-100 | Every step keeps the pace, counted from any point of a run: an instruction for each slot since, while work is left |
| MachineProgress.BoundedCompletion | os_lamiaatrium/src/os.c:55-100 | Once the clock is past the last addition by as many slots as there are instructions in all, every process has been added and has run to its end |
| MachineProgress.EverySlotRuns | os_lamiaatrium/src/os.c:55-100 | Over any stretch of any run after the last addition that ends with work left, at least as many instructions are run as slots end in it, not counting one that it starts in the middle of |
| MachineClock.StepForward | os_lamiaatrium/src/os.c:55-100 | Every step of any thread or of the timer, other than stopping the timer, brings it forward along a path through the slot: the rank rises |
| MachineClock.RankAtMost | os_lamiaatrium/src/timer.c:20-59 | No thread and no timer position is beyond what the clock's slot allows: the rank is bounded by the clock and the number of CPUs |
| MachineClock.ClockMoves | os_lamiaatrium/src/timer.c:20-59 | A run at whose end the clock shows t has at most (7n + 10)t + 5n + 6 steps other than stopping the timer, on n CPUs, however the threads are scheduled |
| MachineClock.EveryRunFinishes | os_lamiaatrium/src/os.c:55-139 | Every run with more steps than that bound gives for the slot of the last addition plus all instructions has added and finished every process; no fairness is assumed |
| MachineClock.EndIsCompletion | os_lamiaatrium/src/os.c:55-139 | A reachable state from which nothing can step but stopping the timer has every process added and finished |
| MachineStops.NoWorkStops | os_lamiaatrium/src/os.c:79-84 | With the loader done, a CPU that finds nothing after putting back or finishing a process leaves its loop with its next step, detaches with the one after, and takes no third |
| MachineStops.StopsExactly | os_lamiaatrium/src/os.c:55-103 | Once the loader is done and all processes have run, a CPU that holds a process or has just let one go has stopped by two slots later, on any schedule; any other CPU never stops |
| MachineStops.NeverStops | os_lamiaatrium/src/os.c:62-70 | On a machine without processes no CPU ever stops, and so the timer is never gone |
| MachineStops.DoneInTime | os_lamiaatrium/src/os.c:115-150 | done is set only with every process added, and is set, the loader detached, once the clock is two slots past that of the last addition |
| Regions.CarvedBytes | os_lamiaatrium/src/libmem.c:502-527 | Shrinking, removing or emptying the chosen region takes from the free list exactly the bytes handed out |
| Regions.AllocConserves | os_lamiaatrium/src/libmem.c:70-121 | Any allocation: every byte keeps its number of owners, less the bytes the symbol held before, and more by the bytes from the break up if nothing fits |
| Regions.AllocHolds | os_lamiaatrium/src/libmem.c:70-121 | After an allocation its symbol holds exactly size bytes, each free before or from the break up, and every other symbol holds what it held |
| Regions.FreeConserves | os_lamiaatrium/src/libmem.c:134-165 | A free keeps every byte's number of owners |
| Regions.FreeReleases | os_lamiaatrium/src/libmem.c:134-165 | A free leaves its symbol not in use and the other symbols alone, and puts the region in front of the free list |
| Regions.FreeThenAlloc | os_lamiaatrium/src/libmem.c:70-165 | Freeing a region and allocating its size again gives the same region back, with the free list and all symbols as before |
| Regions.AllocFirstFit | os_lamiaatrium/src/libmem.c:496-500 | An allocation takes the front of the first region that is large enough; the regions before and behind it stay, in order |
| Regions.AllocOwned | os_lamiaatrium/src/libmem.c:70-121 | After any allocation exactly these bytes are owned: those owned before but the symbol's own, and if nothing fits those from the break up |
| Regions.StepConserves | os_lamiaatrium/src/libmem.c:70-165 | An allocation that keeps its symbol's bytes and, where nothing fits, finds room at the break, and any free, keep regions disjoint, lose no byte, add only those grown by and leave the break where it is |
| Regions.RegionsConserved | os_lamiaatrium/src/libmem.c:70-165 | From disjoint regions any such run leaves them disjoint, with the bytes there were and those it grew by |
| Regions.FreedOnce | os_lamiaatrium/src/libmem.c:134-165 | After a free, whatever is done short of an allocation into that symbol, every further free of it is refused and changes nothing |
| Regions.ReuseLosesBytes | os_lamiaatrium/src/libmem.c:70-121 | Any allocation into any symbol loses no byte if and only if the symbol held none, or nothing fits and growth hands out all the bytes it held again |
| Regions.GrowthOverlaps | os_lamiaatrium/src/libmem.c:91-117 | Any allocation into any symbol keeps regions disjoint if and only if something fits, or none of the bytes from the break up is free or held by another symbol |
| Regions.GrowsOnce | os_lamiaatrium/src/libmem.c:91-117 | After any run from a new area that grew, every further allocation that nothing fits, into a symbol that does not hold byte 0, makes regions overlap |
| Regions.BytesLost | os_lamiaatrium/src/libmem.c:78-81 | From a new area: allocate 100 bytes, free, allocate 40, allocate 30 into the same symbol, and byte 0 is lost |
| Regions.SymbolsCollide | os_lamiaatrium/src/libmem.c:91-117 | From a new area: two allocations of 100 bytes give two symbols the same bytes |
| Regions.Area.constructor | os_lamiaatrium/src/mm64.c:1007-1026 | The area init_mm leaves: no symbol in use, one empty free region |
| Regions.Area.EnlistVmFreergList | os_lamiaatrium/src/libmem.c:33-47 | The region becomes the head of the linked list, unless it is empty |
| Regions.Area.CloneNext | os_lamiaatrium/src/libmem.c:510-520 | Copying the next node over the chosen one and freeing it equals deleting one element of the list |
| Regions.Area.Carve | os_lamiaatrium/src/libmem.c:505-529 | The three ways the chosen node gives up its bytes, on the linked nodes |
| Regions.Area.GetFreeVmrgArea | os_lamiaatrium/src/libmem.c:481-539 | The traversal finds the first region that fits and carves it, or fails and changes nothing |
| Regions.Area.AllocRegion | os_lamiaatrium/src/libmem.c:70-121 | __alloc on the linked list, the symbol table and the break: both branches, and the address handed out |
| Regions.Area.FreeRegion | os_lamiaatrium/src/libmem.c:134-165 | __free on the linked list and the symbol table, with both ways it refuses |
| FifoPages.FirstInFirstOut | os_lamiaatrium/src/libmem.c:452-473 | Over any interleaving, victims taken and then pages still listed are the pages listed at first and then the pages enlisted, in order |
| FifoPages.VictimsInMappingOrder | os_lamiaatrium/src/libmem.c:452-473 | From an empty list the k-th victim is the k-th page enlisted |
| FifoPages.MappingEnlists | os_lamiaatrium/src/mm64.c:650-664 | Mapping a range enlists its pages in ascending order |
| FifoPages.PageList.EnlistPgnNode | os_lamiaatrium/src/mm64.c:1167-1176 | A new node becomes the head of the linked list |
| FifoPages.PageList.FindVictimPage | os_lamiaatrium/src/libmem.c:452-473 | The traversal takes the last node off the linked list; an empty list yields no page |

## Left out

- PhysicalMemory.MemPhy.constructor: asks for two frames or more; with one, MEMPHY_format leaves the end of the list
  unset, and with none the list itself.
- PhysicalMemory.MemPhy.Format: builds the free list as a sequence held in a field, so the linking of its nodes is not
  modelled.
- PhysicalMemory.MemPhy.GetFreeFp: takes the head of that sequence; relinking and freeing the node are not modelled.
- PhysicalMemory.MemPhy.PutFreeFp: extends that sequence at its head; making and linking the node are not modelled.
- Paging.AllocPagesRange: returns the frames taken as a sequence, and malloc does not fail.
- Paging.FreeFrameList: takes that sequence; the nodes it frees are not modelled.
- Paging.VmapPageRange: pushes pages on the contents of the page list; the list's nodes are those of FifoPages.PageList.
- Paging.InitMm: sets the directory and the page list; the memory area and the symbol table it also makes are those of
  Regions.Area, and the unused lower-level directory pointers are not modelled.
- Scheduler.MlqScheduler.TakeFrom: does not copy the queue pointers into the kernel record of the process.
- Scheduler.MlqScheduler.GetMlqProc: neither copies those pointers nor has the lazy slot initialisation, which
  init_scheduler makes unreachable.
- Scheduler.MlqScheduler.PutMlqProc: does not copy those pointers.
- Regions.Area.constructor: does not model the id and the bounds of the area, which nothing modelled reads, and reads the
  uninitialised pointer that init_mm links its first free region to as ending the list.
- Regions.Area.EnlistVmFreergList: where the list is empty, asks that the element lead nowhere, as the code does not set
  its next pointer then.
- Regions.Area.GetFreeVmrgArea: excludes negative sizes, which its 64-bit sums would turn into huge ones.
- Regions.Area.AllocRegion: excludes sizes beyond `int`, which the call of get_free_vmrg_area would narrow, and symbols
  outside the table, which __alloc does not check for.
- Regions.Area.FreeRegion: excludes symbol 30, one past the end of the table, which the code lets through.
- FifoPages.PageList.FindVictimPage: excludes a list of one page, on which the code follows a null pointer.
- Area ids other than 0, the only one liballoc and libfree pass, and `inc_vma_limit` beyond its being a stub that leaves
  the break where it is.
- `pg_getpage`, `pg_getval`, `pg_setval`, `__read`, `__write` and the syscalls behind them: their bodies are unfinished.
- `init_pte`, `pte_set_swap`: no caller in the modelled code; they would add entry formats but no harder property.
- `vmap_pgd_memset`: it maps every page to frame 0, which no injectivity result can cover.
- Accesses beyond the memory, which the code does not check for on a random-access device: callers are required to stay
  inside.
- Reuse of a freed control block's address by a later process: stale entries of the running list are other handles.
- Exact equality of the running list with the processes held by CPUs: finished processes are never purged from it, and
  the model keeps them there.
- What instructions do (`run` advances the program counter and then interprets): only the program counter is modelled.
- free_pcb_memph, sequential-access devices, the 32-bit stubs of mm.c, mem.c, paging.c and the scheduler without MLQ.
- File loading, configuration parsing, printing, dumps, the syscall table, thread creation, the memory model of the
  hardware and failure of malloc.
