# trunix in Dafny

A model of the memory and process machinery of trunix, a small i386 kernel, with proofs about it.
`dafny verify dfyconfig.toml` covers the whole project.

| file | what it models |
|---|---|
| `Words.dfy` | 32-bit rounding and the linear address mapping |
| `IntrusiveLists.dfy` | the TAILQ, LIST and SLIST macros, with link cells and back pointers |
| `Blocks.dfy` | free blocks and the first-fit search shared by both allocators |
| `PageAllocator.dfy` | `alloc_pages`, `free_pages` and the list built by `init_mem` |
| `KernelHeap.dfy` | `kmalloc` and `kfree` |
| `ProcLayout.dfy` | sizes, offsets and states of a `struct proc` |
| `Scheduler.dfy` | `scheduler`, `yield`, `sys_fork`, `sys_execve`, `sys_exit`, `sys_open` as steps over the run queue and the state words |
| `MemoryMap.dfy` | `add_memmap`, `cut_memmap` and the boot sequence over the 32-slot table |
| `Memory.dfy` | `memset` and `memmove` on physical memory |
| `Paging.dfy` | two-level page tables, the processor's walk (Intel SDM volume 3A, section 4.3, 32-bit paging), frame ownership |
| `Regions.dfy` | a process's region list under fork and mmap |
| `ElfLayout.dfy` | how `loadelf` lays out the loadable segments (System V gABI, chapter 5) |
| `Devices.dfy` | what opening a file and its driver asks of the two allocators |
| `AddressSpaces.dfy` | `copykvm`, `alloc_pt`, `sys_mmap`, `loadelf`, `sys_execve`, `initsys`, `sys_fork`, `sys_open`, `sys_read` on allocators, tables and memory together |
| `Supplies.dfy` | which rows of requests `alloc_pages` and `kmalloc` can serve, and with which blocks |
| `Enough.dfy` | how much free memory makes the calls on address spaces come back |
| `ProcessRuns.dfy` | whole runs of exec, fork, mmap, open, read and user stores over all address spaces |
| `TrapFrames.dfy` | kernel entry and exit, `switch_to`, first dispatch of a new thread, on registers and stack words |
| `Threads.dfy` | the system call table, state words, descriptors and run queue on that machine, carrying out the steps of `Scheduler.dfy` |
| `Systems.dfy` | `Threads` and `AddressSpaces` together: runs in which calls take number and arguments from user registers and new threads take pages from the allocator |
| `Startup.dfy` | the way from the boot loader's memory map to the first process |
| `Numbers.dfy` | both `itoa` functions and `oct2int` |

Code that changes things in place is a class whose methods do the same stores in the same order; each method
is tied to a function of the old state, and the promises are lemmas about those functions and about runs of
them. Pointers are numbers with zero for NULL, link fields are maps from node to field, and 32-bit wrap-around is
written out where the source computes with `u32`.

The main results:

* Scheduling is exact round robin. The run queue holds processes that never run again and that nothing unlinks, yet the
  ready ones in it behave as a plain FIFO queue. The halt loop is reached exactly when everybody has exited or has
  opened a seventeenth file: the record of that file is stored over the state word, which lies behind the descriptors
  (`HaltsExactly`, `NeverHalts`, `HaltExample`, `StateSpared`).
* On every run of exec, fork, mmap, open, read and user stores every user page of every process has a frame of its own,
  the kernel half means the same in every directory, the kernel directory never changes, and no call or store changes
  what any other process reads. `loadelf` gives the file's bytes and zeros at every segment address; `fork` gives a child
  that reads the same at every user address, from frames nobody owned before.
* On the machine level, for every run of user code, timer interrupts and system calls dispatched on eax, the stacks,
  contexts, state words, descriptors and run queue in memory carry exactly the registers and the scheduling an observer of
  the processes would expect, until process 1 exits, nobody is ready, or the kernel is led where nothing is known.
* The two together: a process that waits behind j others resumes at the (j+1)-th change of hands, with the registers
  it had and every byte of its memory as it was, whatever the others did meanwhile (`Systems.ResumesIntact`); and a forked
  child first runs with the parent's registers, zero in eax, and every byte the parent had at the call
  (`Systems.ForkDuplicates`). `Startup.RunFromPowerOn` starts such runs from the memory map.
* A call leaves in its caller's registers exactly the answer the address spaces give, and a successful `execve` resumes at
  the entry of the image it loaded (`Systems.CallReturns`, `Systems.ExecResumes`). The arguments are those a C program wrote
  in its library call (`Systems.AsksAsCalled`). No file record is ever in two descriptors, of one process or of two
  (`Systems.DescriptorsUnshared`).
* Boot accounts for all of the memory map: what is available outside the three cuts is free, in one of four chunks, or in a
  remainder that a split lost (`Startup.PowerOn`). A map of a single slot never boots, because the first split loses all
  that remains (`Startup.ComesUpWhen`).
* Both allocators conserve memory over every run: pages are free, handed out, or in a precisely identified lost
  remainder; the byte heap stays tiled and in canonical form.
* `cut_memmap` is set difference although it refills the table it is walking over, with an exact panic condition.

Where the code does not do what it seems meant to do, the model keeps the code, and a lemma says exactly when it
does; small instances that fail are stated too. These places are `free_pages` on an empty list
(`FreedPages`, `RunConserves`, `DropExample`), zero-byte page requests (`AllocatedStillFree`), the list order of
`init_mem` (`InitListSorted`, `InitOrderExample`), the unassigned `tmp` and the null `n` of `kfree` (`FreeExact`,
`MallocFreeRoundTrip`, `FreeFaultExample`, `StrayExample`), the size wrap of `kmalloc`, which ties a list node to
itself (`NeedIsHonest`, `Kmalloc`, `KnotIsNoList`), the jump through the system call table, whose index wraps and is not
checked (`TableHit`, `HighNumberForks`), the seventeenth open file (`StateSpared`, `HaltExample`), reads into kernel
addresses (`KernelStoreKeeps`, `KernelAddressLeads`), the end of the kernel image used at boot (`RestOfImageExample`), the digits that fit the number buffers (`TextFits`), the two
roundings of `add_memmap` (`AddedInside`, `AddedBeyondExample`), a cut that ends in the last page (`CutAtTop`), the
two roundings of `loadelf` (`PiecesDisjointExact`, `RoundingExample`), the recorded size used by fork (`ForkFits`,
`ForkAfterMmap`), the `mmap_base` of a forked child (`MmapFromZero`), and overlapping `memmove` (`MemmoveExact`).

Outside code enters as follows. Allocation failure in the middle of a call is a write through NULL or a failed
assertion in the source; methods report it as `Fault`, after which nothing else is promised. Contracts say exactly when:
a call faults if and only if, request by request, the page list or the 64 KiB kernel heap cannot serve what it asks for
(`LoadStops`, `MmapStops`, `ForkStops`, `OpenReturns`, `BootStops`; `Enough.dfy` says how much is enough), a driver is missing, or the page of a user store or
read buffer is not mapped. A run of the whole system also ends when user code enters the kernel with data segments that
cannot be written or with the direction flag set, since kernel entry changes neither (`Threads.Regular`). What
compiled C code leaves in registers and below its stack pointer is an arbitrary parameter. System calls and timer interrupts are atomic
because their vectors are interrupt gates (kernel/gate.S:273-279, kernel/gate.S:289-295) and `yield` and
`scheduler` execute `cli` (kernel/proc.c:382, kernel/proc.c:395).

## Model

| member | source | states |
|---|---|---|
| Words.RoundUp | include/trunix/vm.h:86-95 | for every argument, the least multiple not below it, or that multiple less 2^32 when it does not fit |
| Words.RoundDown | include/trunix/vm.h:100-109 | the greatest multiple not above the argument |
| Words.PgUp | include/trunix/vm.h:33 | page round-up, and that it is zero for arguments above the last page boundary |
| Words.LinearMappingRoundTrips | include/trunix/vm.h:28-29 | the two address mappings add and take away 2^31, and undo each other exactly on the half each was meant for |
| IntrusiveLists.ForwardLinksDetermineNodes | include/sys/queue.h:131-161 | head and next fields describe at most one sequence of nodes |
| IntrusiveLists.LinksInserted | include/sys/queue.h:205-224 | the stores of an insertion at any position keep forward links, back pointers to cells and the node sequence consistent |
| IntrusiveLists.LinksRemoved | include/sys/queue.h:227-234 | the same for a removal at any position, first and last included |
| IntrusiveLists.TailQueue.InsertTail | include/sys/queue.h:479-484 | appends to the sequence and keeps back pointers and the tail cell right |
| IntrusiveLists.TailQueue.Remove | include/sys/queue.h:503-512 | deletes that node from the sequence, the tail cell following when it was last |
| IntrusiveLists.LinkedList.InsertHead | include/sys/queue.h:220-224 | prepends, invariant kept |
| IntrusiveLists.LinkedList.InsertAfter | include/sys/queue.h:205-211 | inserts right after the given node, invariant kept |
| IntrusiveLists.LinkedList.InsertBefore | include/sys/queue.h:213-218 | inserts right before the given node through its back pointer, invariant kept |
| IntrusiveLists.LinkedList.Remove | include/sys/queue.h:227-234 | deletes through the back pointer without walking the list, invariant kept |
| IntrusiveLists.SinglyLinkedList.InsertHead | include/sys/queue.h:136-139 | prepends, forward links kept |
| IntrusiveLists.SinglyLinkedList.InsertAfter | include/sys/queue.h:131-134 | inserts right after the given node |
| IntrusiveLists.SinglyLinkedList.Remove | include/sys/queue.h:149-161 | the walk finds the predecessor and deletes exactly that node |
| Blocks.FirstFitIsFirst | kernel/mem.c:66-68 | the block taken is large enough and none before it is |
| PageAllocator.PageAllocator.AllocPages | kernel/mem.c:60-82 | list and result are those of the specification that the conservation lemmas are about |
| PageAllocator.PageAllocator.FreePages | kernel/mem.c:84-108 | aborts exactly on NULL, else the list is the one the freeing lemmas are about |
| PageAllocator.PageAllocator.InitMem | kernel/mem.c:182-200 | the free list of the available entries, in the order the code produces |
| PageAllocator.AllocConserves | kernel/mem.c:60-82 | NULL exactly when no block is large enough; else old pages split into new list, block handed out, and the dropped remainder, without overlap |
| PageAllocator.FreedPages | kernel/mem.c:98-107 | freeing keeps the block's pages if and only if the list was not empty |
| PageAllocator.FreedPlace | kernel/mem.c:98-107 | a freed block goes right before the first block that is not smaller, so before all of its own size |
| PageAllocator.AllocatedStillFree | kernel/mem.c:73-81 | the block handed out is still listed if and only if the request was for zero bytes and another block existed |
| PageAllocator.DropExample | kernel/mem.c:78-79 | splitting the only block loses its remainder, on a concrete list |
| PageAllocator.BestFit | kernel/mem.c:66-82 | in size order a smallest sufficient block is taken and the order stays |
| PageAllocator.StepConserves | kernel/mem.c:60-108 | one operation keeps the partition into free, handed-out and lost pages; lost pages grow exactly when an insertion meets an empty list |
| PageAllocator.RunConserves | kernel/mem.c:60-108 | the same over every run, with size order kept once it holds |
| PageAllocator.InitPlace | kernel/mem.c:191-199 | `init_mem` puts an entry right behind the first larger block, or last if there is none |
| PageAllocator.InitListSorted | kernel/mem.c:184-200 | `init_mem` yields size order if and only if the entries come in ascending size |
| PageAllocator.InitOrderExample | kernel/mem.c:194-198 | two entries for which it does not |
| KernelHeap.CanonicalUnique | kernel/mem.c:110-173 | an address-ordered list without touching blocks is determined by its free bytes |
| KernelHeap.NeedIsHonest | kernel/mem.c:116-119 | below 2^32 - 9 the size is the least multiple of 8 with room for request and header; it is zero for the next eight requests and 8 for the last; the assertion fails exactly from 4087 bytes on, until the sum wraps |
| KernelHeap.MallocPlace | kernel/mem.c:121-139 | the first block with room gives its front, and what is left of it takes its place in the list |
| KernelHeap.MallocConserves | kernel/mem.c:121-139 | free bytes before are free bytes after plus the block, disjointly, and the list stays canonical |
| KernelHeap.FreeExact | kernel/mem.c:142-173 | whatever the unassigned pointer holds, exactly the block's bytes are freed and the list stays canonical, if and only if some free block lies above and the block does not end at the first free one |
| KernelHeap.FreeWithStray | kernel/mem.c:142-173 | for one value of that pointer: when the free is right, and when it faults |
| KernelHeap.FreeFaultExample | kernel/mem.c:159-163 | a list on which freeing goes through NULL |
| KernelHeap.StrayExample | kernel/mem.c:151-155 | a free that loses eight bytes when the unassigned pointer yields zero |
| KernelHeap.MallocFreeRoundTrip | kernel/mem.c:110-173 | freeing the block just handed out restores the very same list whatever the unassigned pointer holds, if and only if the same two conditions hold; and exactly when for one value of it |
| KernelHeap.FreesCommute | kernel/mem.c:142-173 | two blocks freed in either order leave the same list |
| KernelHeap.StepTiles | kernel/mem.c:110-173 | one legal call keeps the arena tiled by aligned, non-touching free blocks and live blocks whose size fits the header |
| KernelHeap.RunTiles | kernel/mem.c:110-173 | the same over every legal run |
| KernelHeap.FreshHeapTiles | kernel/mem.c:202-207 | the 64 KiB heap starts tiled |
| KernelHeap.KernelHeap.Kmalloc | kernel/mem.c:110-140 | every request: assertion exactly from 4087 bytes on; the header holds the least multiple of 8 not below request and header, and the first block that long gives that many bytes; other live headers untouched; a size that wraps to zero leaves the first block linked to itself |
| KernelHeap.KernelHeap.TieKnot | kernel/mem.c:124-136 | the stores made for a size of zero |
| KernelHeap.KnotIsNoList | kernel/mem.c:124-136 | after them the links describe no list of nodes at all |
| KernelHeap.KernelHeap.Kfree | kernel/mem.c:142-173 | list and null access as specified, from the header in front of the pointer, for every value behind the unassigned pointer, unreadable ones included; other live headers untouched |
| KernelHeap.KernelHeap.FindGap | kernel/mem.c:159-161 | the loop ends at the neighbours of the freed block, or with NULL when nothing lies above |
| Scheduler.StepInvariant | kernel/proc.c:365-503 | every step keeps: each process in exactly one place, at most one running, it is `curthread` and off the queue, distinct pids, process 1 alive |
| Scheduler.RunInvariant | kernel/proc.c:365-503 | the same over every run |
| Scheduler.HaltsExactly | kernel/proc.c:397-404 | a scan enters the halt loop if and only if every process is dead or has opened a seventeenth file |
| Scheduler.NeverHalts | kernel/proc.c:397-404 | from boot no run enters the halt loop while process 1 has at most sixteen open files, and every scan then dispatches |
| Scheduler.HaltExample | kernel/fs.c:157-162 | process 1 alone, opening until its seventeenth file and then preempted, does reach it |
| Scheduler.StepIsFifo | kernel/proc.c:389-418 | the ready processes in queue order change like a FIFO queue on every step, whatever dead ones lie between |
| Scheduler.DispatchOrder | kernel/proc.c:389-418 | the j-th process dispatched is the j-th ready one at the start |
| Scheduler.ExactRoundRobin | kernel/proc.c:365-418 | a process with r ready ones ahead is taken by the (r+1)-th dispatch and by none before |
| Scheduler.GoneForever | kernel/proc.c:491-503 | what is queued and not ready, dead or with its state word overwritten, stays so and is never dispatched |
| MemoryMap.AddedExact | kernel/paging.c:40-70 | a page range not covered before is added to the covered addresses; panic exactly when all slots are taken |
| MemoryMap.AddedInside | kernel/paging.c:48-49 | the recorded range stays inside the given one if and only if rounding moves the start by no more than it takes off the length |
| MemoryMap.AddedBeyondExample | kernel/paging.c:48-49 | a range recorded beyond its end |
| MemoryMap.SlotCutExact | kernel/paging.c:83-101 | one iteration removes exactly the cut from its slot, in place, and when it panics |
| MemoryMap.CutExact | kernel/paging.c:72-103 | set difference on covered addresses, slots still disjoint and below the bound; panic exactly for a strict cut of a full table; at most one slot more |
| MemoryMap.CutAtTop | kernel/paging.c:80-94 | an end in the last page rounds to zero and the call changes nothing |
| MemoryMap.AddAllExact | kernel/init.c:44-54 | the table covers exactly the recorded ranges of the available entries; panic exactly for more than 32 of them |
| MemoryMap.RecordedRange | kernel/paging.c:40-70 | an entry is added as its recorded, page-rounded range is |
| MemoryMap.RecordedAsIs | kernel/paging.c:48-49 | a page-aligned entry below 2^32 is recorded as it is |
| MemoryMap.RecordedExact | kernel/paging.c:48-49 | below 2^32 the recorded range starts at the next page boundary and has the whole pages of the length |
| MemoryMap.BootExact | kernel/init.c:44-70 | after boot exactly the recorded addresses of available entries outside the three cuts remain; panic if and only if there are more than 32 entries, or all slots are taken and the kernel or then the ramdisk lies strictly inside one |
| MemoryMap.BootHigh | kernel/paging.c:62-64 | after boot the high-water mark is the highest end recorded, whether that memory was cut out or not |
| MemoryMap.RestOfImageExample | kernel/linker.ld:34-43 | the end of the image passed to the cut is that of its unpaged part, so frames of the rest stay in the map |
| MemoryMap.KernelInfo.AddMemmap | kernel/paging.c:40-70 | the slot array after the call is the specified table, high-water mark included |
| MemoryMap.KernelInfo.CutMemmap | kernel/paging.c:72-103 | the loop over the array it edits, with its moving bound, ends in the specified table |
| MemoryMap.KernelInfo.InitTrunix | kernel/init.c:44-70 | the boot sequence on the array ends in the table of the boot theorem |
| Memory.MemmoveExact | kernel/string.S:22-48 | copies correctly whatever the bytes if and only if the ranges coincide or do not overlap |
| Memory.CopyUpOverlap | kernel/string.S:31-41 | which byte an overlapping upward copy gets wrong |
| Memory.CopyDownOverlap | kernel/string.S:31-41 | which byte an overlapping downward copy gets wrong |
| Memory.Memmove | kernel/string.S:22-48 | the direction taken, by the signed comparison, and the bytes it leaves |
| Memory.SignedOrder | kernel/string.S:31-32 | the signed comparison is the unsigned one exactly for addresses on one half |
| Memory.Memset | kernel/string.S:99-111 | the range filled and nothing else |
| Paging.FramesNotShared | kernel/mem.c:227-255 | no frame is a user page in two ways, from one directory or two |
| Paging.KernelHalfShared | kernel/mem.c:213-225 | a kernel address walks the same from every directory as from the kernel's own |
| Paging.MapPageCore | kernel/mem.c:238-250 | writing one page, with or without a fresh table, keeps every directory in order |
| Paging.MapPageWalk | kernel/mem.c:238-250 | the walk of that page leads to the new frame with user access, and other pages of the directory walk as before |
| Paging.MapPageElsewhere | kernel/mem.c:238-250 | other directories walk as before |
| Paging.MappedOneMore | kernel/mem.c:237-254 | one more iteration extends the mapped range by one page and nothing else |
| Paging.WithDirectoryCore | kernel/mem.c:213-225 | a fresh directory maps no user page and shares the kernel half; others are unchanged |
| Paging.MapPagePresent | kernel/mem.c:238-246 | the directory gains exactly the table of the page mapped |
| Regions.ForkMaps | kernel/proc.c:443-460 | the child's list maps exactly the parent's pages, each to its place in the chunk |
| Regions.ForkSeparate | kernel/proc.c:443-460 | the child's regions share no page when the parent's do not |
| Regions.ForkFits | kernel/proc.c:435-460 | all child regions lie in the chunk if and only if the parent's lengths sum to at most its recorded size |
| Regions.ForkAfterMmap | kernel/proc.c:435 | after any mapping by a process that filled its recorded size they do not |
| Regions.MmapKeepsShape | kernel/mem.c:272-314 | a mapping lands above the image, below the stack, apart from all regions |
| Regions.MmapsNeverCollide | kernel/mem.c:257-317 | so does every mapping of any sequence |
| Regions.MmapFromZero | kernel/mem.c:298-299 | for a child whose base is zero, exactly when its first mapping is apart from what it inherited |
| ElfLayout.MagicBytes | kernel/proc.c:29 | the magic number is the byte 0x7F and the letters ELF, low byte first |
| ElfLayout.ScanHeaders | kernel/proc.c:209-229 | refusal exactly for header types 2 and 3; else the number and the page bounds of the loadable segments |
| ElfLayout.BoundsExact | kernel/proc.c:221-228 | the bounds are the lowest page start and the highest page end of the segments, and are reached |
| ElfLayout.AlignedImageGood | kernel/proc.c:255-269 | page-aligned segments in ascending order meet all that the loader's correctness asks of an image |
| ElfLayout.PiecesDisjointExact | kernel/proc.c:255-287 | the pieces placed in the chunk are disjoint if and only if each segment's two roundings agree |
| ElfLayout.RoundingExample | kernel/proc.c:257-272 | a two-byte segment for which they do not |
| ElfLayout.ChunkCountsPages | kernel/proc.c:244-273 | the loader's position is the number of pages of the segments placed so far |
| ElfLayout.ImageFits | kernel/proc.c:235-287 | all segments and the stack fit the one chunk allocated |
| ElfLayout.ElfRegionsShape | kernel/proc.c:234-289 | the region list has no shared pages, lies below `mmap_base` or in the stack, and sums to at most the recorded size |
| AddressSpaces.AddressSpaces.CopyKvm | kernel/mem.c:213-225 | a new directory that shows no user page; every other address space unchanged |
| AddressSpaces.AddressSpaces.MapOne | kernel/mem.c:238-250 | one iteration on tables and allocator is the page-map step, invariant kept |
| AddressSpaces.AddressSpaces.AllocPt | kernel/mem.c:227-255 | the page map of the directory is overridden by the range, other pages and directories as before, across any number of new tables; it fails if and only if the free list cannot give a page for every table that is missing |
| AddressSpaces.AddressSpaces.SysMmap | kernel/mem.c:257-317 | zero, and nothing changes, exactly for zero length or when base and page-rounded length, added in 32 bits, are not below the limit; else a zeroed region in front, its own frames, base advanced, no other process touched; it faults if and only if heap, chunk or tables cannot be had |
| AddressSpaces.GrantedWhen | kernel/mem.c:267-274 | the check grants every request that ends at least a page below the limit, and without a wrap of the sum no other |
| AddressSpaces.MmapNoWrap | kernel/mem.c:272-279 | a granted request whose memory exists cannot have wrapped the 32-bit sum |
| AddressSpaces.AddressSpaces.PlaceSegments | kernel/proc.c:244-273 | all segments placed one after the other, their bytes in memory, their pages shown |
| AddressSpaces.AddressSpaces.LoadElf | kernel/proc.c:180-292 | minus one exactly for a bad magic or a refused header; a fault exactly when directory, chunk, region records (for at most 254 segments and the stack) or tables cannot be had; else reads of every segment byte give file byte or zero, and the stack reads zero |
| AddressSpaces.SegmentReadsBack | kernel/proc.c:255-269 | the byte at segment address va + j, read through the page walk, is file byte j below `filesz` and zero up to `memsz` |
| AddressSpaces.LoadedReads | kernel/proc.c:244-289 | in a loaded program each address of each header of type 1 reads as the file's byte at that header's offset, or zero behind them, and the stack page as zeros |
| AddressSpaces.AddressSpaces.SysExecve | kernel/proc.c:477-489 | on success the caller's address space is the loaded one, on failure nothing changes; no owned byte of others changes; when it faults, exactly |
| AddressSpaces.AddressSpaces.SysOpen | kernel/fs.c:140-168 | minus one for a path that leads nowhere or an eighteenth file; else the next descriptor, its record in the block `kmalloc` hands out at the call, and the records and the page that the driver takes; a fault if and only if a record cannot be had or a driver is missing |
| AddressSpaces.OpenedReads | kernel/fs.c:170-185 | a file opened on the framebuffer, and on no other node, is one `sys_read` stores from |
| AddressSpaces.AddressSpaces.ConsoleOpen | drivers/video/console/console.c:94-107 | a console takes a record, a page if there is one, and the framebuffer's file and record; it returns if and only if these records are to be had and `/dev/fb` is a framebuffer |
| AddressSpaces.AddressSpaces.SysRead | kernel/fs.c:170-185 | a framebuffer's bytes are stored one by one through the caller's pages; a fault if and only if one of these is not mapped; all else changes nothing |
| AddressSpaces.AddressSpaces.UserStore | kernel/mem.c:227-255 | a store by user code writes the byte its page leads to; a fault exactly when the page is not mapped |
| AddressSpaces.AddressSpaces.AllocThread | kernel/proc.c:108-118 | a zeroed page nobody owned becomes the kernel's; it fails if and only if no block has a page |
| AddressSpaces.AddressSpaces.InitSys | kernel/proc.c:339-352 | the first process has pid 1, the loaded image and three open files of what `/dev/console` names, none if it names nothing, with their records where `kmalloc` puts them; when boot stops, and the lists it leaves, exactly |
| AddressSpaces.AddressSpaces.Boot | kernel/proc.c:339-362 | the same with the page of the idle thread |
| AddressSpaces.AddressSpaces.ForkRegion | kernel/proc.c:446-457 | one region mapped at its place and copied byte for byte, no other byte written |
| AddressSpaces.AddressSpaces.ForkRegions | kernel/proc.c:443-460 | all regions, in the parent's order |
| AddressSpaces.AddressSpaces.FileNodes | kernel/proc.c:467-470 | one block of the kernel heap for each open file, those `kmalloc` hands out one after the other; it fails if and only if one of them cannot be had |
| AddressSpaces.AddressSpaces.SysFork | kernel/proc.c:420-475 | the child maps the parent's pages exactly, reads the same at every user address, uses no frame owned before, its thread is on a page nobody owned, and its file records are the blocks handed out after the region records; minus one if and only if the stack page is to be had and the chunk is not; a fault if and only if stack page, directory, tables, region records or file records cannot be had |
| AddressSpaces.ForkedByte | kernel/proc.c:446-457 | for one user address, parent and child read the same byte |
| ProcessRuns.ViewKept | kernel/mem.c:227-255 | a process whose regions stay reads the same byte at every user address after a call that writes no owned frame |
| ProcessRuns.StoreShowsOnce | kernel/mem.c:227-255 | a byte stored by user code shows at that address of that process and at no other address of any process |
| ProcessRuns.BufferShowsOnce | kernel/fs.c:170-185 | a buffer filled in the user half shows at its addresses in the caller and nowhere in any other process |
| ProcessRuns.KernelStoreKeeps | drivers/video/fbdev/fbdev.c:87-95 | a byte stored through a kernel address leaves a process's view alone if and only if it has no page over that byte or the value was there |
| ProcessRuns.KernelAddressLeads | kernel/paging.c:127-134 | from every directory the kernel address of a physical byte leads to that byte, where the kernel half is mapped in order |
| ProcessRuns.NodesSizeIs | kernel/proc.c:239 | one request for 16 bytes for each segment and the stack, which passes the size assertion exactly for at most 254 segments |
| ProcessRuns.OwnPathAllowed | kernel/proc.c:420-489 | the discipline allows what the system itself does: fork, exec in the child, then mappings, opens, reads and stores, and further forks by processes that mapped nothing |
| ProcessRuns.Step | kernel/proc.c:420-489 | one exec, fork, mmap, open, read or store: what the caller or child gets, which blocks its file records are, that every other process keeps its address space and reads the same bytes, that the kernel heap only gives, and that the kernel directory and all owners of frames stay; it stops if and only if an allocation on its way fails, a driver is missing or a page stored to is not mapped |
| ProcessRuns.SpacesIsolated | kernel/mem.c:213-255 | two user pages of live processes never share a frame; kernel pages are the same for all |
| ProcessRuns.Run | kernel/proc.c:339-489 | every run from boot is a chain of such steps and ends with this isolation and page-disjoint regions; it halts if and only if the next allowed call stops, and else ends early only at a call outside the discipline that children exec before mapping and that processes do not fork after mapping |
| TrapFrames.Machine.EnterKernel | kernel/interrupt.S:182-188 | hardware push, segment pushes and `pushal` put all user registers into a trap frame that ends at `tss.esp0` |
| TrapFrames.Machine.RestoreAll | kernel/interrupt.S:238-244 | `end_syscall` and `trapret` put back exactly the registers of the frame |
| TrapFrames.Machine.SwitchTo | kernel/switch.S:26-42 | callee-saved registers and stack pointer of one thread saved, those of the other loaded |
| TrapFrames.Machine.AllocThread | kernel/proc.c:108-134 | a cleared page with five words set: stack, trap frame and context pointers, and the returns through `forkret` and `trapret` |
| TrapFrames.Machine.ProcCreate | kernel/proc.c:136-157 | user segments and flags in that frame |
| TrapFrames.Machine.Dispatch | kernel/proc.c:407-414 | switching to any parked thread, new or preempted or in exec, ends in user mode with its registers; no other thread's stack changes |
| TrapFrames.Machine.PushArgs | kernel/interrupt.S:275-326 | the stub's argument words lie above the return address its handler finds |
| TrapFrames.Machine.YieldOut | kernel/proc.c:379-387 | a thread that yields is parked: switching back to it will resume it with the registers of its trap frame |
| Threads.TableHit | kernel/interrupt.S:236-256 | the jump finds an entry of the table if and only if eax modulo 2^30 is at most nine, and which one |
| Threads.HighNumberForks | kernel/interrupt.S:236 | 0x40000002 is `fork` as well as 2 |
| Threads.ArgumentsArrive | lib/libc/sys/mman/mmap.S:5-24 | for each call of the library, what the caller put above its return address is, in order, what the kernel's stub passes to the handler |
| Threads.RegularIs | kernel/interrupt.S:228-236 | which user registers the kernel can work with: the direction flag clear, the user data selector in ds and es; those of a new process are among them, with user code and stack selectors, interrupts on and zero elsewhere |
| Threads.QuietFits | kernel/interrupt.S:182-327 | with code that stores nothing every event is in order but one: user code does not leave user mode by itself |
| Threads.Kernel.FindReady | kernel/proc.c:397-399 | the scan of state words finds the first ready process, or none |
| Threads.Kernel.Pick | kernel/proc.c:397-414 | the first ready process is RUNNING, off the queue, and in user mode with its registers; the halt loop if and only if there is none |
| Threads.Kernel.Yield | kernel/proc.c:379-387 | RUNNING becomes READY, any other state word stays; the thread is parked and at the tail of the queue |
| Threads.Kernel.Timer | kernel/interrupt.S:182-200 | a timer interrupt puts the current process behind all waiting ones and changes no user register |
| Threads.Kernel.Handle | kernel/interrupt.S:264-327 | the handler of entry i finds the words its stub pushes from the user registers, and the trap frame stays |
| Threads.Kernel.Call | kernel/interrupt.S:275-326 | the caller's eax is the handler's result; no other word of the kernel changes |
| Threads.Kernel.PutFile | kernel/fs.c:157-162 | the record goes to the first empty descriptor, or to the state word behind the last one if that is zero; else minus one |
| Threads.Kernel.Open | kernel/fs.c:140-168 | the caller gets the next descriptor, the seventeenth at the price of its state word, or minus one |
| Threads.StateSpared | kernel/fs.c:157-162 | the state word survives an open if and only if one of the sixteen descriptors was empty |
| Threads.Kernel.Ignored | kernel/interrupt.S:258-262 | entries 0, 6 and 7 change nothing at all |
| Threads.Kernel.Fork | kernel/proc.c:420-475 | the parent resumes with eax the next pid; the child is READY, has that pid, the same registers and eax zero, and waits last; descriptor i of the child holds the i-th new record for each of the parent's files, and the parent's descriptors stay; a failing fork returns minus one and still uses up a pid; with an overwritten state word nothing is known |
| Threads.Kernel.CopyFiles | kernel/proc.c:467-470 | the descriptor loop ends at the parent's first empty word; for every file of the parent the child's descriptor holds its own new record, the others are zero, and the parent's are as before |
| Threads.Kernel.Exec | kernel/proc.c:477-489 | a successful load waits last, to start at the entry with the top-of-memory stack and eax what the C function leaves; a failed one returns minus one |
| Threads.Kernel.Exit | kernel/proc.c:491-503 | panic if and only if the pid word is 1; else the caller is DEAD and the next ready one runs, if any |
| Threads.Kernel.Syscall | kernel/interrupt.S:228-327 | the effect is chosen by eax through the table; outside the table the run ends |
| Threads.Kernel.Boot | kernel/proc.c:339-414 | the first process is RUNNING at its entry with pid 1, user segments, interrupts on and all other registers zero |
| Threads.Kernel.Step | kernel/interrupt.S:182-327 | one event does to machine, state words, descriptors and queue what the scheduler's step system and `After` say of the processes |
| Threads.Kernel.Run | kernel/interrupt.S:182-327 | so does every run from boot, up to a panic, the halt loop, or where nothing is known |
| Threads.RunWellFormed | kernel/proc.c:339-503 | over every run each process is in one place, and has as many files as its state allows |
| Threads.RunInvariant | kernel/proc.c:339-503 | over every run the scheduler's invariant holds of the processes: one place each, at most one running, distinct pids, process 1 not dead |
| Threads.NeverHalts | kernel/proc.c:397-404 | on every run from boot the halt loop is not reached while process 1 has at most sixteen open files |
| Threads.GoneForever | kernel/proc.c:389-418 | a process that exits, or gives way after its seventeenth open file, never runs again |
| Threads.KeepsPlace | kernel/proc.c:379-418 | a waiting process keeps its registers, and its place in the queue but for the changes of turn |
| Threads.ResumesInTurn | kernel/proc.c:379-418 | the process with j others before it resumes at the (j+1)-th change of turn with the registers it had |
| Threads.ForkReturnsTwice | kernel/proc.c:464-474 | the pid at once to the parent; zero to the child when all that waited before it have had their turn |
| Supplies.OneBlockServes | kernel/mem.c:110-140 | how many equal requests a heap of one free block serves, exactly |
| Supplies.FreshHeapServes | kernel/mem.c:202-207 | the 64 KiB heap serves 2730 region records and no more |
| Supplies.OneBlockRow | kernel/mem.c:110-140 | a heap of one block serves a row of requests exactly if it is as long as they take together, and what it leaves |
| Supplies.AllotsFresh | kernel/mem.c:110-140 | blocks handed out one after the other were free, are not free afterwards, and have no byte in common |
| Supplies.TakeKeeps | kernel/mem.c:60-82 | of two blocks longer than a request both are still there afterwards, one perhaps shorter by the request |
| Devices.OpenTakes | kernel/fs.c:164-167 | a framebuffer takes 48 bytes of the kernel heap, a console 80 and it needs a framebuffer behind `/dev/fb`; no other node can be opened |
| Devices.FreshHeapOpens | kernel/fs.c:164-167 | the 64 KiB heap serves 819 consoles and no more |
| Enough.MapReturns | kernel/mem.c:276-317 | two free blocks longer than chunk and tables, and a region record, are enough for `sys_mmap` |
| Enough.LoadReturns | kernel/proc.c:207-289 | so are two longer than directory, chunk and tables for `loadelf` |
| Enough.ForkReturns | kernel/proc.c:420-475 | and two longer than kernel stack, chunk, directory and tables, with the records, for a fork that gives a child |
| Enough.BootReturns | kernel/proc.c:339-362 | an accepted image, five pages more than it takes, and 240 bytes of heap beside its records are enough for boot |
| Enough.NothingLeft | kernel/mem.c:66-71 | with no free page, or nothing left in the kernel heap, each of these calls stops the kernel |
| Systems.Boot | kernel/proc.c:339-414 | when boot succeeds, exactly, the idle thread's page included, and the state it leaves: first process running at its image's entry, its image loaded, three files of what the console names |
| Systems.Step | kernel/interrupt.S:228-327 | one event, with number and arguments from the user registers, the caller's pid from its process structure and a new thread's page from the allocator, does to registers, descriptors, queue, memory and page tables what `Moves` says, whose meaning the next rows state; it goes on if and only if neither the event ends the run nor a call into the address spaces stops the kernel |
| Systems.AsksAsCalled | lib/libc/unistd/read.S:5-12 | a program that makes a library call asks for what it wrote, parameter by parameter of the C prototypes |
| Systems.AllowedAsCalled | lib/libc/sys/mman/mmap.S:5-24 | which library calls a run carries on with, as a condition on the words the caller wrote, both directions |
| Systems.BareExact | kernel/interrupt.S:228-256 | exactly which events lead where nothing is known |
| Systems.CallReturns | kernel/interrupt.S:270-327 | fork, read, open and mmap leave their answer modulo 2^32 in the caller's eax, write zero or minus one as the descriptor is open or not; every other register of every process stays, and the caller goes on |
| Systems.ExecResumes | kernel/proc.c:275-277 | a successful `execve` leaves the caller with the entry of the image and the stack top that its new address space records, and all other registers but eax; it resumes last of all that wait; a failed one goes on with minus one and its memory as it was |
| Systems.RecordsGiven | kernel/proc.c:467-470 | a fork gives the child, and an open the caller, exactly the blocks the kernel heap hands out at that call: free before, not free afterwards, no byte in common; no other records change |
| Systems.ApartKept | kernel/proc.c:467-470 | over every event the blocks behind all file records stay apart from each other and from the free heap |
| Systems.DescriptorsUnshared | kernel/fs.c:157-165 | on the machine no file record is in two descriptors, of one process or of two |
| Systems.Run | kernel/interrupt.S:182-327 | every run from boot is a chain of such moves, ends early only at such an event or one outside the discipline, and leaves all processes isolated |
| Systems.TiedKept | kernel/proc.c:420-474 | every thread is on a page of the kernel's, its pid names an address space with as many open files as it has descriptors, and the next pid is fresh |
| Systems.FreshThread | kernel/proc.c:108-118 | a thread on a page just allocated is apart from every other thread, the idle one and the scheduler's stack |
| Systems.StepIntact | kernel/proc.c:339-503 | an event of another process changes neither registers, pid, memory nor relative place of one that waits |
| Systems.ResumesIntact | kernel/proc.c:339-503 | over every history, the process with j others before it resumes at the (j+1)-th change of hands with the registers it had and every byte of its memory as it was |
| Systems.ForkDuplicates | kernel/proc.c:420-475 | the parent goes on with the child's pid; the child first runs with the parent's registers, zero in eax, and every byte as the parent had it at the call, whatever happened since |
| Startup.BlocksInOrder | kernel/mem.c:184-200 | the blocks `init_mem` makes of a map without empty slots are aligned and disjoint, and an address is covered by the map if and only if its frame is in one of them |
| Startup.ServedConserves | kernel/mem.c:60-82 | over a row of requests every page is free, in a chunk, or in a lost remainder, and in one of them only |
| Startup.ComesUpWhen | kernel/mem.c:182-204 | a map with two slots of more than 21 pages is enough for the four chunks; a map with a single slot never is |
| Startup.TakeChunks | kernel/main.c:45-49 | heap, ramdisk tables and region table are taken in order, or boot stops, exactly |
| Startup.PowerOn | kernel/main.c:45-49 | from the boot loader's map to the state `initsys` starts from, exactly when the map does not overflow, has no empty slot and gives the chunks of 64, 8, 8 and 1 KiB; an address is available and outside the three cuts if and only if its frame is then free, in one of these chunks, or in a remainder lost by a split; all that is assumed of that state holds |
| Startup.RunFromPowerOn | kernel/main.c:45-51 | a run of the whole system from there, with the exact conditions of both parts |
| Numbers.NumeralUnique | kernel/serial.c:48-59 | a number has one numeral without leading zeros in a base |
| Numbers.DigitsDenote | kernel/serial.c:48-51 | the digits produced denote the number and have no leading zero |
| Numbers.DigitCount | kernel/serial.c:29 | k digits suffice exactly for the numbers below base to the k |
| Numbers.DigitsFit | kernel/serial.c:29 | 32 digits always suffice, 31 after a sign or for numbers of 31 bits, and base two needs 32 |
| Numbers.TextFits | lib/libc/stdio/vfprintf.c:22-72 | the text and its NUL fit 33 characters except for the most negative number in base -2 |
| Numbers.TextDenotes | lib/libc/stdio/vfprintf.c:22-72 | the text is the numeral of the number, after a minus sign for negative numbers in signed bases |
| Numbers.KernelAgreesWithLibc | kernel/serial.c:39-46 | kernel base 10 is library base -10, other bases agree; base 10 itself agrees exactly for non-negative numbers |
| Numbers.Formatter.Fill | kernel/serial.c:48-51 | digits from the low one up, the sign in front kept |
| Numbers.Formatter.Reverse | kernel/serial.c:55-59 | turns a stretch of the buffer around in place |
| Numbers.Formatter.KernelItoa | kernel/serial.c:24-62 | the buffer holds the NUL-terminated text the lemmas describe, within 33 characters |
| Numbers.Formatter.LibcItoa | lib/libc/stdio/vfprintf.c:22-72 | the same for the library's function |
| Numbers.Oct2Int | kernel/fs.c:39-55 | the 32-bit value of the characters before the first NUL within the length |
| Numbers.OctalRoundTrip | kernel/fs.c:39-55 | inverts base-eight `itoa` whenever all digits are read, for which eleven characters suffice; for non-negative numbers other than zero only then |

## Left out

- what the drivers do beyond opening and reading a framebuffer: drawing and writing are taken to stay inside the framebuffer, which lies in the kernel half and has as many bytes as are read. Device (not anonymous) `mmap` is not modelled
- `printk`, `vfprintf` and the file system tables: which inode a path names is given with the event; path strings are taken to be mapped
- loads by user code: user registers change arbitrarily between kernel entries. Processor exceptions other than page faults of modelled stores are no events
- `sys_munmap`, `proc_destroy`, `free_uvm`, `kthread_create` beyond the idle thread, `dequeue`: stubs, or never called
- the keyboard interrupt: it saves and restores the two registers it uses
- accesses through NULL are taken to stop the kernel, also where the caller has page zero mapped
- the poison byte 0x69 that `free_pages` writes, and the bytes of page tables, which are kept apart from the other memory
- accessed and dirty bits, and the translation cache
- the library's `read` stub is labelled `write` in the source (lib/libc/unistd/read.S:5); `Threads.StubCall` models its code, not the label
- contents of open files, which `sys_fork` copies, and `argv` and `envp` of `sys_execve`, which the source ignores
- fields of `struct proc` other than pid, kernel stack, state, context, trap frame and descriptors as words of the machine in `Threads.dfy`; its queue links are those of `IntrusiveLists.dfy`
- kernel code and static data as contents of memory: boot cuts only the unpaged part of the image out of the memory map (`RestOfImageExample`), so the frames of the rest are handed out; what that destroys is not modelled
- Systems.Run: kernel stacks are words of the machine and user memory is bytes, though the pages of threads are the allocator's. Events are within the discipline of `ProcessRuns.Run` and the stack bounds of compiled code; `read` and `write` name one of the sixteen descriptors, their buffers lie in the user half, and `write` reads from a region of the caller
- Threads.Kernel.Fork: of a fork by a process with an overwritten state word nothing is said, because its descriptors then run on into other fields
- AddressSpaces.AddressSpaces.AllocPt: flags are always user, writable, present, because every caller passes those
- AddressSpaces.AddressSpaces.LoadElf: demands segments on disjoint pages below the stack, sizes in the file not above sizes in memory, agreeing roundings and file bytes present; the source takes these on trust. The region list is a sequence, whose nodes are counted against the kernel heap but not placed in it
- AddressSpaces.AddressSpaces.SysOpen: `/dev/fb` that names a console is taken to stop the kernel, since the two opens call each other until heap or stack run out, and so is a major number without a driver
- AddressSpaces.AddressSpaces.SysFork: demands page-disjoint regions whose lengths sum to at most the recorded size, at most sixteen open files, and a pid of at most 128, the size of the region table. The recorded size of the child is whatever its table slot held
- ProcessRuns.Run: calls outside the stated discipline end the run, because `sys_fork` copies neither `mmap_base` nor the recorded size and `sys_mmap` does not grow it
- memory of replaced address spaces, of refused images and of failed forks stays owned and unreachable, as in the source; nothing is claimed about reclaiming it
- PageAllocator.PageAllocator.InitMem: entries are non-empty, page-aligned and disjoint; the source does not skip zero-length slots, and `Startup.PowerOn` stops at a map that has one below its bound
- Startup.PowerOn: available memory lies below 2 GiB, recorded ranges do not overlap, and the page directory lies in the part of the image that is cut out. A ramdisk has at least one file
- PageAllocator.PageAllocator.FreePages: the block given back is a page-aligned block of the kernel half that is not on the list
- KernelHeap.KernelHeap.Kmalloc: after a request whose size wraps to zero the list is a knot and nothing is promised of later calls
- KernelHeap.KernelHeap.Kfree: what lies behind the unassigned pointer of the source is the parameter `stray`, a size or an unreadable address
- MemoryMap.CutExact: slots are page-aligned, disjoint and end below 2^32
- MemoryMap.BootExact: recorded ranges of available entries are not empty, do not overlap and end below 2^32
- Memory.Memmove: both ranges lie in the mapped physical memory
- Scheduler.StepInvariant: pids are distinct until the 32-bit counter wraps
- Threads.Kernel.Run: what a handler returns is a parameter here, and allocation failure inside handlers is the subject of `Systems.Run`; of a number that leads outside the table, and of entry with unusable segments or the direction flag set, nothing is said but that the run ends. In the halt loop a run ends too
- Numbers.Formatter.KernelItoa: bases 2 to 16
- Numbers.Formatter.LibcItoa: bases 2 to 16 and their negatives, and not the most negative number in base -2, whose text does not fit the buffer
- Numbers.Oct2Int: 32-bit overflow of the accumulator, undefined in C, wraps around here
