# ConeOS: a verified model of the kernel's core

ConeOS is a small x86-64 kernel. This project models, in Dafny, the parts of it whose correctness
is hard to see from the code, and proves what those parts are for.

**Copy-on-write virtual memory** (`Pmm`, `Paging`, `Accounts`, `Translation`, `Walks`, `Cow`,
`Subtrees`, `Clones`, `Fork`, `Supply`, `Vmm`, `Machine`, `UserMemory`, `UserCopy`, `Boot`, `Elf`,
`Faults`, `Kernel`).
Physical memory is a map from frames to page tables or data, and the manager changes the tables in
place: it builds and rolls back paths, prunes empty tables, clones spaces, shares and copies pages.
A ghost record says which position of which space each table belongs to and which frames kernel
code holds. On top of it stand four results:

- every reference count is the number of user pages that map the frame, over all spaces, plus the
  table and the handles on it, after every operation and on every failure path;
- the tables are a flat map: an operation changes the translation of one page and of no other;
- over every run, each space behaves as if it had a private memory, with rights of its own to write
  and execute: a fork copies both, and neither sharing nor resolving shows (`Machine.RunRefines`,
  `Machine.Isolation`);
- from boot protection on, no page is ever writable and executable.

`Kernel.Lifetime` puts them together: it takes the memory map and the loader's tables through the
allocator's start and boot protection, and then serves any sequence of requests, from processes and
from the kernel. In every state of every such run ownership is exact and no page is writable and
executable, and programs see private memories and rights that only their own requests change
(`Kernel.Apart`). Loading a program image, copying to and from user memory, and the page-fault
handler are built on the same manager: an image that is loaded can be run (`Elf.Load`), and an access
that faulted is allowed once the fault has been handled (`Faults.PageFault`).

**Pipes, descriptors and wake-ups** (`Descriptors`, `PipeProtocol`, `Vfs`, `Wakeups`). Each stretch of code
that runs with interrupts off is one step; tasks may be interleaved at every other point, in
particular between a change to a pipe and the wake call that follows. `PipeProtocol.EveryRun` proves
exact counts, first-in-first-out pipes and no lost wake-ups for any number of tasks. The calls in
`Vfs` work on the kernel's static arrays and are proved to be steps of that protocol: the descriptor
calls by `PipeProtocol.CallIsStep`, the locked parts of reads and writes by `Vfs.ReadIsStep` and
`Vfs.WriteIsStep`. `Wakeups.WakeArrives` puts the protocol on top of the scheduler: a task whose reason
to wait is gone is about to be woken, and then gets the processor within a bounded number of switches.

**The scheduler** (`Scheduler`): safety over whole runs and bounded waiting. **Process memory**
(`Regions`): the region table, the address search, and the page account. **The kernel heap**
(`KernelHeap`): tiling, two-way links, merging, and exactly when each call fails. **FAT32**
(`FatSlots`, `FatVolume`, `FatRuns`, `LongName`): cluster chains, file contents, the search for
directory slots and the growth of directories, runs of file operations that behave as a map from
files to bytes while the directories on disk describe exactly these files, and the long-name codec
against an independent definition of UTF-8 and UTF-16. **Spinlocks** (`Locks`): mutual exclusion and freedom
from deadlock for any number of processors.

Objects the source updates in place are classes whose methods are specified by functions on values;
the laws are lemmas about those functions, or clauses of the methods.

Three properties one might expect do not hold of the code, and are stated exactly instead.

- A name that contains U+FFFF is accepted by the long-name encoder but not given back by the decoder
  (`LongName.NoncharacterLost`); a name is given back exactly if it does not contain it
  (`LongName.NameRoundTrip`).
- A failed creation of a file may leave clusters behind the parent directory
  (`FatVolume.FailureKeepsCluster`). `FatVolume.Volume.Create` says when: the failure is for want of
  room in the directory, and then all free clusters but the one for the file are there.
- The switch in `task.c` hands the processor back to a task that gave it up when no task at all can
  run, even if it has exited (`Scheduler.LoneZombieRuns`); `Scheduler.ComesBack` says when. The
  kernel's runs do not get there: the boot task never exits, blocks or sleeps, and then no exited
  task is ever set running (`Scheduler.NoZombieEverRuns`).

Two limits of the code show in the contracts: contiguous allocation does not find a run that
straddles the search hint, and a failed file write may leave the file's chain longer than its size
needs.

## Model

| member | source | states |
|---|---|---|
| Pmm.Init | src/mm/pmm.c:63-141 | Setting up the allocator fails exactly when no usable region can hold the bitmap and the counts; otherwise exactly the usable pages outside the allocator's own pages are free, and the three records agree. |
| Pmm.HighestAddress | src/mm/pmm.c:70-77 | The scan finds the end of the highest usable region, which bounds every usable page. |
| Pmm.HighestReached | src/mm/pmm.c:70-77 | The highest address is the end of a usable region. |
| Pmm.MetadataPages | src/mm/pmm.c:79-86 | The fewest pages for one bit for each frame, and the fewest for 16 bits for each. |
| Pmm.Allocator.constructor | src/mm/pmm.c:108-138 | Setting every bit, clearing the usable pages and setting the metadata pages again leaves exactly the managed pages free, with an exact free counter even where regions are visited out of order. |
| Pmm.Allocator.ClearRegions | src/mm/pmm.c:113-127 | After the pass over the map a bit is clear exactly for the usable pages, and the counter has counted each of them once. |
| Pmm.Allocator.ClearRegion | src/mm/pmm.c:118-126 | One region clears its own whole pages and no others; no page is counted twice, because usable regions do not overlap. |
| Pmm.Allocator.SetMetadata | src/mm/pmm.c:129-138 | The allocator's own pages are taken, and only those that were free reduce the counter. |
| Pmm.Allocator.AllocWithReserve | src/mm/pmm.c:143-169 | Fails exactly when no more pages than the reserve are free and then changes nothing; otherwise takes the next-fit page, with count one. In a consistent allocator the two passes cannot miss a free page. |
| Pmm.Allocator.AllocPage | src/mm/pmm.c:171 | Fails exactly when nothing is free. |
| Pmm.Allocator.AllocUserPage | src/mm/pmm.c:173-175 | Fails exactly when only the kernel reserve of 1024 pages is left. |
| Pmm.Allocator.AllocContiguous | src/mm/pmm.c:177-208 | Takes the first run of clear bits from the hint on, or else the first below the hint; fails exactly when neither window has a run, although the scan skips ahead past the first used page it meets. |
| Pmm.Allocator.TakeRun | src/mm/pmm.c:196-201 | Taking a run at once is the same as taking its pages one by one. |
| Pmm.Allocator.FreePage | src/mm/pmm.c:210-241 | Succeeds exactly on an aligned address whose page has a reference; drops one reference and frees the page with the last one, and otherwise changes nothing. |
| Pmm.Allocator.RetainPage | src/mm/pmm.c:243-259 | Succeeds exactly for counts strictly between zero and 65535 and adds one reference. |
| Pmm.Allocator.References | src/mm/pmm.c:261-272 | Reports the count of a page, and zero for anything the allocator does not manage. |
| Pmm.TakenConsistent | src/mm/pmm.c:155-163 | A clear bit is a managed page and proves that the counter is positive; taking it keeps bitmap, counts and counter in agreement. |
| Pmm.ReleasedConsistent | src/mm/pmm.c:228-238 | Dropping a reference keeps the three records in agreement. |
| Pmm.TakenRunConsistent | src/mm/pmm.c:196-201 | Taking a clear run keeps the three records in agreement. |
| Pmm.TakeThenRelease | src/mm/pmm.c:143-241 | Giving a page back right after taking it restores bitmap, counts and free counter. |
| Pmm.RunNeedsFree | src/mm/pmm.c:181-184 | A run of clear bits needs as many free pages, so the early exit of the contiguous allocator loses nothing. |
| Paging.AddTableOk | src/mm/vmm.c:98-107 | A cleared frame can become a detached table without changing any entry or user page. |
| Paging.AttachOk | src/mm/vmm.c:64-88 | Linking a detached table keeps the tables a forest and changes one entry. |
| Paging.DetachOk | src/mm/vmm.c:477-483 | Clearing a link leaves a detached tree and changes one entry. |
| Paging.DropTableOk | src/mm/vmm.c:543-551 | Giving up an empty detached table changes no entry. |
| Paging.DisbandOk | src/mm/vmm.c:378-393 | Taking a table out of the forest makes each table below it a tree of its own and silences exactly its own entries. |
| Paging.CountReplace | src/mm/vmm.c:653-667 | Moving a mapping to another frame moves exactly one count. |
| Accounts.SoleHandle | src/mm/vmm.c:98-107 | A count of one behind a handle rules out any table or mapping on the same frame. |
| Accounts.TableCountOne | src/mm/pmm.c:143-169 | A managed frame that holds a page table has count one and no other owner. |
| Accounts.SameCounts | src/mm/vmm.c:477-483 | Reference counts, bitmap and free counter are determined by tables, mappings and handles. |
| Accounts.SupplySame | src/mm/vmm.c:477-483 | If all tables, entries and handles are back where they were, no page and no reference has been gained or lost. |
| Translation.WriteXorExecute | src/mm/vmm.c:420-470 | In every state with its flags in order no page translates as writable and executable, a copy-on-write page is a read-only user data page, and no page of the kernel's space is open to user mode. |
| Translation.TranslateElsewhere | src/mm/vmm.c:569-610 | If the terminal entries of two sets of tables agree except at one page, every other page translates alike. |
| Translation.MappedFlat | src/mm/vmm.c:460-470 | A new mapping adds at most that one page to the user pages of all spaces. |
| Translation.MappedFlags | src/mm/vmm.c:460-470 | A new mapping with permitted flags keeps write-xor-execute everywhere, links opened for user mode included. |
| Walks.IndexIsSlot | src/mm/vmm.c:430-435 | The four nine-bit indices of an address are the slots on the way to its page. |
| Walks.PhysicalAddress | src/mm/vmm.c:594-599 | The address a query reports is the page's frame plus the offset, for 4 KiB, 2 MiB and 1 GiB pages alike. |
| Walks.MapChangesOnePage | src/mm/vmm.c:418-484 | After a successful map the page translates to the frame and flags asked for, and every other page of every space translates as before. |
| Walks.UnmapChangesOnePage | src/mm/vmm.c:501-555 | After a successful unmap the page has no translation and every other page translates as before, however many tables were pruned. |
| Walks.MapPageFlags | src/mm/vmm.c:420-463 | A request that is accepted keeps the flags in order, provided a copy-on-write page is asked for as a read-only user data page. |
| Walks.LeafAsAsked | src/mm/vmm.c:460-463 | The new entry has the address and every flag that was asked for, and no other. |
| Walks.TableEntryIs | src/mm/vmm.c:98-107 | The entry of a new table is writable, executable and cached, so permissions are those of the leaves. |
| Walks.CanonicalIs | src/mm/vmm.c:30-35 | The test accepts exactly the two halves of the 48-bit address space. |
| Walks.AllowedIs | src/mm/vmm.c:420-429 | In a process's lower half everything may be mapped that is not both writable and executable, and in the kernel's space the same as long as programs cannot use it. |
| Walks.UnmapIs | src/mm/vmm.c:501-512 | A page can be unmapped in every lower half, and in the kernel's upper half. |
| Walks.NothingThere | src/mm/vmm.c:442-458 | A page without translation has no leaf and lies under no large page, so nothing but memory can stop it being mapped. |
| Walks.RollbackEmpty | src/mm/vmm.c:477-483 | The deepest table made on the way is still empty, so it can be taken back. |
| Cow.ResolveInPlace | src/mm/vmm.c:651-652 | An unshared copy-on-write page becomes writable in place with every invariant kept. |
| Cow.ResolveCopy | src/mm/vmm.c:653-667 | Switching a shared page to its own copy moves exactly one reference, keeps the bytes, and touches no other page. |
| Subtrees.DisbandAcct | src/mm/vmm.c:378-393 | A table that leaves the forest turns its own reference and those of its user leaves into handles, one each. |
| Clones.CloneUndone | src/mm/vmm.c:80-83 | Destroying a partial copy restores the forest it was made from. |
| Clones.CloneNoUsers | src/mm/vmm.c:64-88 | A copy of kernel tables maps no user page. |
| Fork.ForkDone | src/mm/vmm.c:187-203 | Sharing all pages and then protecting the parent's leaves both with exactly the parent's frames, and with the parent's uses of each page: what it may write to, at once or after a resolution, and what it may execute; but nobody writes to a shared frame. |
| Fork.ForkShares | src/mm/vmm.c:115-185 | Every page of the parent is afterwards a page of both spaces, on its frame, writable or copy-on-write exactly if it was, and executable exactly if it was. |
| Fork.ForkUndone | src/mm/vmm.c:187-203 | Destroying the child of a failed fork restores every table and entry. |
| Fork.CowExclusive | src/mm/vmm.c:158-203 | After a fork every page still writable is still alone on its frame. |
| Supply.FreeDrop | src/mm/pmm.c:143-169 | Only new tables use up free pages, as long as the frames user pages map were mapped before. |
| Supply.CloneShort | src/mm/vmm.c:64-88 | If copying a subtree runs out of pages, fewer were free at the start than the whole copy has tables. |
| Supply.FillFails | src/mm/vmm.c:115-156 | If a page cannot be shared with a child, either few pages were free at the start, or the page's count is at least half of the limit, or the child has something else at that address. |
| Supply.ForkFails | src/mm/vmm.c:187-203 | The same, told in terms of the state before the fork and of the kernel's lower half. |
| Supply.CloneTranslate | src/mm/vmm.c:352-369 | A new space translates a lower-half page as the kernel does. |
| Supply.ForkTables | src/mm/vmm.c:187-203 | A fork leaves every table outside the child in place, changes only the parent's own pages, and lets the child translate addresses it does not share as the kernel does. |
| Vmm.Manager.constructor | src/mm/vmm.c:292-333 | The tables that boot protection leaves are taken over unchanged as a sound starting state; `Kernel.Start` says what else holds of them. |
| Vmm.Manager.Take | src/mm/pmm.c:143-175 | A page taken from the allocator belongs to no table, mapping or handle. |
| Vmm.Manager.Free | src/mm/pmm.c:210-241 | Giving a handle back keeps the accounts balanced, also for frames the allocator does not manage. |
| Vmm.Manager.CreateTable | src/mm/vmm.c:98-107 | Fails exactly when no page is free and then changes nothing; otherwise adds one empty table behind one entry. |
| Vmm.Manager.BuildPath | src/mm/vmm.c:442-454 | The walk down adds only empty tables on the way to the page, all recorded for rollback, and stops only for a large page or when fewer than three pages were free. |
| Vmm.Manager.UnlinkTable | src/mm/vmm.c:478-482 | Unlinking an empty table and freeing its page changes one entry and no mapping. |
| Vmm.Manager.Rollback | src/mm/vmm.c:477-483 | Undoing the tables made, deepest first, restores every table and every entry. |
| Vmm.Manager.MarkUser | src/mm/vmm.c:464-470 | The links on the way become user links; nothing else changes. |
| Vmm.Manager.MapAt | src/mm/vmm.c:437-484 | Either the page is mapped and the caller's handle spent, or tables and entries are as before; it fails only if the page is mapped, a large page is in the way, or fewer than three pages were free. |
| Vmm.Manager.MapPage | src/mm/vmm.c:418-484 | Only permitted requests succeed; on success exactly one page appears, with each flag that was asked for, cache control included, and no other; on failure every entry, table, reference and free page is back, and with three free pages only an existing mapping makes a permitted request fail. |
| Vmm.Manager.WalkDown | src/mm/vmm.c:520-528 | Finds the four tables above a page exactly when the last of them exists. |
| Vmm.Manager.TableIsEmpty | src/mm/vmm.c:90-96 | True exactly when no entry is present. |
| Vmm.Manager.Prune | src/mm/vmm.c:543-551 | Giving up tables left empty, bottom up, changes no mapping of any page, frees only tables on the way to the unmapped page, and leaves no empty table on that way. |
| Vmm.Manager.PruneLevel | src/mm/vmm.c:543-551 | Frees the table at one level exactly when it has no entry, and no other table. |
| Vmm.Manager.UnmapPage | src/mm/vmm.c:501-555 | Succeeds exactly on a permitted address with a 4 KiB mapping; returns that frame, removes exactly that page, hands its reference to the caller, and leaves no empty table on the way to it. |
| Vmm.Manager.SplitShared | src/mm/vmm.c:643-667 | Depending on the count, makes the page writable in place or moves it to a copy. |
| Vmm.Manager.CopyShared | src/mm/vmm.c:653-667 | A shared page gets a copy of its bytes in a new frame and gives one reference back; without memory nothing changes. |
| Vmm.Manager.ResolveCow | src/mm/vmm.c:612-676 | Returns 0 exactly for pages that are not copy-on-write user pages, -1 only if the frame is shared and memory is at the reserve, and otherwise leaves the page writable with its bytes and no other page changed. |
| Vmm.Manager.DestroyTable | src/mm/vmm.c:378-393 | Frees a subtree with the references of the user pages it maps; the rest of the forest is untouched and the accounts balance. |
| Vmm.Manager.DestroyClonedTables | src/mm/vmm.c:52-62 | Frees a subtree of tables and leaves what they map alone. |
| Vmm.Manager.DestroySpace | src/mm/vmm.c:395-408 | Removes exactly the tables of that space, with balanced accounts; the kernel's space is refused. |
| Vmm.Manager.CloneTable | src/mm/vmm.c:64-88 | Makes a detached copy of a subtree of kernel tables or changes nothing, and fails only if fewer pages are free than the subtree has tables. |
| Vmm.Manager.UndoClone | src/mm/vmm.c:80-83 | The failure path restores all tables and entries. |
| Vmm.Manager.CloneTopEntry | src/mm/vmm.c:352-369 | Copies the tree behind one lower-half entry of the kernel's top table, or leaves the partial copy as it was. |
| Vmm.Manager.UndoCreate | src/mm/vmm.c:358-367 | Destroying the copies made so far and the top table restores the state before the creation. |
| Vmm.Manager.CopyUpperHalf | src/mm/vmm.c:370-371 | The upper half of the new space is the kernel's, entry for entry, and no table or mapping is added to the books. |
| Vmm.Manager.CreateSpace | src/mm/vmm.c:337-376 | A new space has copies of the kernel's lower-half tables and the kernel's upper half itself, and no user page of any space changes; it fails only if the record cannot be allocated or fewer pages are free than those tables, and then gives everything back. |
| Vmm.Manager.ProtectUserMappings | src/mm/vmm.c:158-185 | Every writable user page below the table becomes copy-on-write; every other entry stays. |
| Vmm.Manager.ShareLeaf | src/mm/vmm.c:139-153 | Shares one page with the child for the same uses, with one more reference, or takes nothing; the three ways it can fail are named. |
| Vmm.Manager.CloneUserMappings | src/mm/vmm.c:115-156 | Shares every user page of the lower half with the child, leaves the parent's pages and all other spaces alone, and fails only for one of those reasons. |
| Vmm.Manager.CloneSpaceCow | src/mm/vmm.c:187-203 | A child that maps exactly the parent's frames for exactly the parent's uses, copy-on-write on both sides where they may be written to, or every table, entry, reference and free page as before; fails only for want of memory, a count at half of its limit, or a kernel page at an address of the parent; outside the child no table moves and only the parent's pages change. |
| Vmm.Manager.Query | src/mm/vmm.c:569-610 | The frame, the effective permissions and the physical address are those of the page's translation, for every page size. |
| Machine.StepRefines | src/mm/vmm.c:612-676 | Mapping, writing, resolving, forking, unmapping and destroying act on private memories and on private rights as their specifications say, and keep every writable page alone on its frame. |
| Machine.RightsRefine | src/mm/vmm.c:115-203 | What a program may write to and execute is copied by a fork, and left alone by stores, resolutions and other spaces. |
| Machine.RunRefines | src/mm/vmm.c:115-203 | Over every run, copy-on-write memory is indistinguishable from a private map of pages to bytes, and to rights, for each space. |
| Machine.Isolation | src/mm/vmm.c:612-676 | Over every run, what a space reads, and what it may do with it, changes only by operations on that space. |
| UserMemory.OwnershipExact | src/mm/pmm.c:143-272 | Ownership is exact in every valid state: a user frame's count is its mappings over all spaces plus the kernel's handles, writable pages and tables are alone on their frames, and the free counter is the number of clear bits. `Kernel.Serve` shows that every state the kernel reaches is valid. |
| UserMemory.StepSane | src/mm/vmm.c:612-676 | Each step of the memory machine carries the manager's whole invariant across. |
| UserMemory.ResolvePage | src/kernel/process.c:483-487 | A write fault on a copy-on-write page changes no byte any space reads. |
| UserMemory.MapZeroed | src/kernel/process.c:502-523 | A fault on an unmapped page adds one zeroed page and translates no other page differently, or changes nothing; with memory to spare a permitted request fails only if the page is mapped. |
| UserMemory.PlaceZeroed | src/kernel/process.c:520-523 | The zeroed page is mapped, or given back so that the state is as before it was taken. |
| UserMemory.ZeroedFrame | src/kernel/process.c:507-512 | A cleared frame nobody else refers to, taken above the kernel reserve. |
| UserMemory.ForkSpace | src/kernel/process.c:374-414 | A child space starts with its parent's bytes and rights, which the parent keeps, or nothing has changed, down to the reference counts. |
| UserMemory.NewSpace | src/mm/vmm.c:337-376 | A new space has no user page; no program notices, and the state stays valid whether or not it succeeds. |
| UserMemory.KernelMap | src/mm/vmm.c:486-499 | A kernel page more, or no change: no user page and no byte a program reads changes, and the state stays valid. |
| UserMemory.KernelUnmap | src/mm/vmm.c:501-559 | A kernel page less, returned exactly if it was there: no other page is translated differently, and no program notices. |
| UserMemory.TakePage | src/mm/pmm.c:143-175 | Kernel code that takes a frame leaves user memory alone; fails exactly at the reserve. |
| UserMemory.GivePage | src/mm/pmm.c:210-241 | Kernel code that gives a frame back leaves user memory alone. |
| UserMemory.UnmapAndFree | src/kernel/process.c:672-676 | Unmapping a page and freeing its frame removes one page from one space and changes the translation of no other. |
| UserMemory.DestroyUserSpace | src/mm/vmm.c:395-408 | The end of a space removes its pages and no other space's. |
| UserCopy.CopyToUser | src/mm/usercopy.c:32-71 | Stores some prefix of the buffer and nothing else, in this space only; all of it exactly on success. It succeeds only if every page may be written, and fails only for a bad range, for the first page that may not be written, or for want of memory. |
| UserCopy.CopyFromUser | src/mm/usercopy.c:32-71 | Succeeds exactly when every byte of the range is a user byte and returns what the space reads there. |
| UserCopy.RangeAccessible | src/mm/usercopy.c:11-30 | True exactly when every byte of the range may be read, or written. |
| UserCopy.RangeIs | src/mm/usercopy.c:7-9 | The overflow-safe test accepts exactly the ranges that lie in the lower half. |
| UserCopy.WritablePage | src/mm/usercopy.c:48-56 | Prepares a page for a write without changing any byte, and says why it could not. |
| UserCopy.StoreChunk | src/mm/usercopy.c:58-68 | Writing through the physical address changes exactly the addressed bytes of one page of one space. |
| UserCopy.UserStore | src/kernel/process.c:483-487 | A user-mode store changes exactly one byte of one space, or fails for want of permission or memory. |
| Boot.PartsAgree | src/mm/vmm.c:205-215 | If a block lies inside a range or misses it, so does each of its parts. |
| Boot.RangeTests | src/mm/vmm.c:205-215 | The two overflow-safe tests say exactly whether all, or any, bytes of a block lie in the range. |
| Boot.AddressInPage | src/mm/vmm.c:251-253 | The address computed for a page is canonical and lies in that page. |
| Boot.SlotAddressOk | src/mm/vmm.c:251-253 | The address computed for an entry, sign extension included, is the first address of what it maps. |
| Boot.SplitPage | src/mm/vmm.c:218-239 | The part of a split page shows the same frame, flags and memory type as the whole page did. |
| Boot.SplitView | src/mm/vmm.c:218-239 | Splitting a large page changes the translation, flags and memory type of no page. |
| Boot.GuardPages | src/mm/vmm.c:255-280 | Guarding a page as a whole guards each 4 KiB of it, where no range cuts through it. |
| Boot.AllGuarded | src/mm/vmm.c:241-290 | Once every entry has been dealt with, flags are in order everywhere and each page is its old self, guarded. |
| Boot.GuardedPage | src/mm/vmm.c:260-279 | A guarded page is supervisor only, executable exactly if it lies in kernel text, and writable exactly if it was and is neither kernel text nor on a frame of the read-only range. |
| Boot.StartAccounts | src/mm/vmm.c:292-333 | The accounting of frames starts out balanced. |
| Boot.Pager.constructor | src/mm/vmm.c:292-333 | The loader's tables as found. |
| Boot.Pager.Split | src/mm/vmm.c:218-239 | Fails exactly when no page is free and then changes nothing; no page is seen differently either way. |
| Boot.Pager.Write | src/mm/vmm.c:272-284 | One entry changes. |
| Boot.Pager.ProtectSlot | src/mm/vmm.c:247-289 | One entry, whichever of the four cases it is: one more entry is done, with every page on its frame. |
| Boot.Pager.Descend | src/mm/vmm.c:284-288 | An entry that leads to a table is opened and the table below protected; every earlier entry stays as it was done, and it fails only without memory. |
| Boot.Pager.Protect | src/mm/vmm.c:241-290 | Whether it succeeds or not, every page keeps its frame and memory type; on success every page below the table is guarded; it fails only without memory or for a large top-level entry. |
| Boot.Pager.ProtectKernel | src/mm/vmm.c:292-333 | Boot protection of the whole space, and the start of the invariants the manager keeps. |
| Descriptors.PopOk | src/fs/vfs.c:160-163 | Taking the byte at the head removes the oldest byte of the pipe. |
| Descriptors.PushOk | src/fs/vfs.c:198-201 | Storing at the tail appends a byte to the pipe. |
| Descriptors.ClearedOk | src/fs/vfs.c:81-136 | Closing a descriptor keeps every count exact and every pipe in use unchanged. |
| Descriptors.PlacedOk | src/fs/vfs.c:95-136 | One more holder of a live object keeps every count exact. |
| Descriptors.MoveKeepsCounts | src/fs/vfs.c:431-725 | Every change to the descriptor table keeps readers, writers and references equal to the descriptors that hold them, objects in use exactly while held, and numbers unique for each process. |
| Descriptors.MoveKeepsOffsets | src/fs/vfs.c:108-130 | No change to the descriptor table moves the offset of a file in use, and opening a file touches no other. |
| PipeProtocol.StepKeepsInv | src/fs/vfs.c:138-213 | Every section of every call, in any interleaving, keeps exact counts, FIFO pipes and no lost wakeups. |
| PipeProtocol.EveryRun | src/fs/vfs.c:138-213 | In every state of every run of any number of tasks: bytes delivered followed by bytes buffered are the bytes accepted, each write call's bytes are in order, and a blocked task still has to wait or some task is about to wake it. |
| PipeProtocol.BlockedForGoodReason | src/kernel/task.c:322-341 | A task left blocked with nobody about to wake it waits on an empty pipe somebody can write to, or on a full pipe somebody can read from. |
| Wakeups.BlockTied | src/kernel/task.c:322-332 | Blocking in a pipe call blocks the caller in the list of tasks exactly if the call goes on waiting. |
| Wakeups.StepTied | src/kernel/task.c:237-272 | No step of the scheduler but a wake-up readies a task that waits for a pipe. |
| Wakeups.WakeTied | src/kernel/task.c:334-341 | A wake-up leaves nobody waiting for a pipe, in the protocol and in the list of tasks. |
| Wakeups.WakeArrives | src/fs/vfs.c:138-213 | No wake-up is lost and every wake-up arrives: for a task whose reason to wait is gone somebody is about to wake it, after that it looks again, and it gets the processor within its cyclic list distance of switches. |
| PipeProtocol.EndOfFile | src/fs/vfs.c:148-177 | A read of a non-empty request returns nothing only when no write end is open and all bytes accepted have been delivered. |
| PipeProtocol.ShortWrite | src/fs/vfs.c:179-213 | A write stops short only when no read end is open, and reports exactly the bytes the pipe accepted from it. |
| PipeProtocol.PipeInUse | src/fs/vfs.c:81-106 | A pipe stays in use while a task is inside a call on it. |
| PipeProtocol.CallIsStep | src/fs/vfs.c:431-725 | A descriptor call that wakes blocked tasks after closing a pipe end is a step of the protocol. |
| PipeProtocol.StartInv | src/fs/vfs.c:418-429 | With nothing open the invariant holds. |
| Vfs.Files.constructor | src/fs/vfs.c:418-429 | Nothing is open at the start. |
| Vfs.Files.Lookup | src/fs/vfs.c:255-261 | Finds a process's descriptor by number exactly when there is one. |
| Vfs.Files.AllocateSlot | src/fs/vfs.c:263-268 | Finds the first free slot, if any. |
| Vfs.Files.EnsureStandard | src/fs/vfs.c:270-292 | Adds only console descriptors for missing numbers 0 to 2, and all of them unless the table is full. |
| Vfs.Files.Place | src/fs/vfs.c:95-123 | A new holder of a file or pipe end raises the right count by one. |
| Vfs.Files.Clear | src/fs/vfs.c:81-130 | A closed descriptor lowers the right count, and frees the object with its last holder; files that stay in use keep their offsets. |
| Vfs.Files.LowestNumber | src/fs/vfs.c:453-457 | The lowest number the process has free, if any. |
| Vfs.Files.Dup | src/fs/vfs.c:548-579 | The same handle under the lowest free number; fails only if the number is not open, or no number or slot is free, and then changes nothing. |
| Vfs.Files.Redirect | src/fs/vfs.c:604-616 | The destination gives up what it held and takes the source's handle; counts stay exact although both may be ends of one pipe. |
| Vfs.Files.Dup2Locked | src/fs/vfs.c:586-619 | Fails exactly if the source is not open or there is no slot; wakes blocked tasks if an end of a pipe may have been closed. |
| Vfs.Files.Dup2 | src/fs/vfs.c:581-620 | The destination opens what the source opens, and no other descriptor changes. |
| Vfs.Files.Close | src/fs/vfs.c:622-640 | Succeeds exactly for open numbers from 3 on, closing an end of a pipe is followed by a wake call, and files that stay in use keep their offsets. |
| Vfs.Files.CloseAll | src/fs/vfs.c:642-660 | Closes every descriptor of one process and no other; files that other processes hold keep their offsets. |
| Vfs.Files.CountSlots | src/fs/vfs.c:685-692 | Counts the parent's descriptors and the free slots. |
| Vfs.Files.ForkLocked | src/fs/vfs.c:684-724 | Succeeds exactly if there are as many free slots as parent descriptors; the child then has exactly the parent's table, else nothing has happened. The roll-back inside the loop is never needed. |
| Vfs.Files.Fork | src/fs/vfs.c:680-725 | The child ends with a table equal to the parent's or with none, and nobody else's descriptors change. |
| Vfs.Files.InheritStandard | src/fs/vfs.c:662-678 | The child gets the parent's descriptors 0 to 2 and no others, or none; it succeeds exactly if the parent has them and three slots are free. |
| Vfs.Files.ShareNumber | src/fs/vfs.c:665-676 | One number: shared exactly if the parent has it and a slot is free, and otherwise nothing changes. |
| Vfs.Files.MakePipe | src/fs/vfs.c:487-546 | Succeeds exactly with an unused pipe, two free numbers and two free slots; then the two lowest numbers open the two ends of an empty pipe. |
| Vfs.Files.InstallPipe | src/fs/vfs.c:521-541 | The new pipe is empty, with one reader and one writer, whatever its record held before. |
| Vfs.Files.Open | src/fs/vfs.c:450-485 | A new open file at offset zero under the lowest free number; fails exactly without number, slot or record. |
| Vfs.Files.ReadSection | src/fs/vfs.c:156-174 | The locked part of a read returns the oldest bytes, as many as asked for and there, or says end of file exactly when empty without writers. |
| Vfs.Files.WriteSection | src/fs/vfs.c:186-202 | The locked part of a write appends as much as fits, and refuses exactly without readers. |
| Vfs.ReadIsStep | src/fs/vfs.c:156-176 | The locked part of a read is a step of the protocol: the bytes returned are those delivered, and the call goes on as the protocol says. |
| Vfs.WriteIsStep | src/fs/vfs.c:186-208 | The locked part of a write is a step of the protocol: the bytes taken are those accepted. |
| Vfs.Drain | src/fs/vfs.c:158-163 | The copy loop with its wrapping head takes the oldest bytes in order. |
| Vfs.Fill | src/fs/vfs.c:197-201 | The copy loop with its wrapping tail appends the bytes in order. |
| Scheduler.StepOk | src/kernel/task.c:237-272 | Every scheduler operation keeps the list: nobody but the current task is running, it is listed, ids are unique, the boot task is the head. |
| Scheduler.EveryRunOk | src/kernel/task.c:67-272 | The same in every state of every run. |
| Scheduler.ScheduledOk | src/kernel/task.c:237-265 | Switching keeps the invariant and makes exactly one task running. |
| Scheduler.ComesBack | src/kernel/task.c:241-255 | A task that is not runnable gets the processor back from a switch exactly when no task is runnable. |
| Scheduler.LoneZombieRuns | src/kernel/task.c:246-250 | The switch alone permits the bad case: a lone task that has exited is set running again. |
| Scheduler.ExitIsFinal | src/kernel/task.c:107-111 | While the boot task can run, the first switch after an exit takes the exited one off the processor. |
| Scheduler.GoneStays | src/kernel/task.c:67-105 | No operation brings a task back that has exited and left the processor. |
| Scheduler.ExitedNeverRuns | src/kernel/task.c:107-111 | Over every run in which the boot task never exits, blocks or sleeps and is never cancelled: an exited task stays a zombie until it is removed, and is off the processor from the first switch on, whatever happens in between. |
| Scheduler.ZombieStays | src/kernel/task.c:67-111 | One operation, while the boot task can run: whoever has exited stays exited. |
| Scheduler.BootAlwaysRunnable | src/kernel/kernel.c:112-123 | In such a run the boot task, which only yields, can run throughout. |
| Scheduler.NoZombieEverRuns | src/kernel/task.c:119-138 | The same from task_init on: no run of the kernel sets a task running that has exited. |
| Scheduler.ScheduleCloser | src/kernel/task.c:87-105 | Each switch runs a given ready task or brings its turn closer. |
| Scheduler.CleanCloser | src/kernel/task.c:67-85 | Removing zombies makes no ready task wait longer. |
| Scheduler.BoundedWaiting | src/kernel/task.c:87-105 | While no task is created, a task that stays ready gets the processor within its cyclic list distance of switches. |
| Scheduler.WokenGetsTurn | src/kernel/task.c:334-341 | A task that is blocked when the blocked tasks are woken gets the processor within its cyclic list distance of switches, unless it is cancelled or tasks are created. |
| Scheduler.ReadyStays | src/kernel/task.c:87-105 | A ready task that does not get the processor stays ready. |
| Scheduler.RestStays | src/kernel/task.c:87-111 | A task that is blocked, or asleep until a later time, is left as it is by every step but a wake-up. |
| Scheduler.RestsUntilDue | src/kernel/task.c:322-355 | In every run in which the boot task stays, nobody leaves the blocked state but by a wake-up, and no sleeper wakes before its time. |
| Scheduler.DueRuns | src/kernel/task.c:88-93 | Once its time has come, the next switch makes a sleeper ready or runs it. |
| Scheduler.GivesWay | src/kernel/task.c:237-265 | A task that has given up the processor loses it while the boot task can run. |
| Scheduler.Deadline | src/kernel/task.c:349-351 | The deadline is now plus the time asked for, or the largest number. |
| Scheduler.Tasks.constructor | src/kernel/task.c:119-138 | The boot task alone, running. |
| Scheduler.Tasks.RemoveZombies | src/kernel/task.c:67-85 | Removes exactly the zombies that are neither current nor the boot task, and keeps the order. |
| Scheduler.Tasks.WakeSleepers | src/kernel/task.c:88-93 | Readies exactly the sleepers whose time has come. |
| Scheduler.Tasks.NextReady | src/kernel/task.c:87-105 | The first ready task after the current one in cyclic order, and the current one last. |
| Scheduler.Tasks.Switch | src/kernel/task.c:241-264 | Exactly one task ends up running: the first ready one after the current, or the current one again. |
| Scheduler.Tasks.Schedule | src/kernel/task.c:237-272 | Yielding and preemption are steps of the protocol. |
| Scheduler.Tasks.BlockIf | src/kernel/task.c:322-332 | Blocks exactly if the condition holds at the check, with no chance for a wake-up between check and switch; while the boot task can run, the caller is then blocked and off the processor. |
| Scheduler.Tasks.WakeBlocked | src/kernel/task.c:334-341 | Every blocked task is ready afterwards, and every other task is unchanged. |
| Scheduler.Tasks.CancelReady | src/kernel/task.c:201-216 | Succeeds exactly for a ready task that is not current, which is a zombie then; no other task changes. |
| Scheduler.Tasks.Exit | src/kernel/task.c:107-111 | An exit is two steps of the protocol; while the boot task can run, the caller is off the processor for good. |
| Scheduler.Tasks.Sleep | src/kernel/task.c:343-355 | A sleep is two steps; the sleeper is off the processor with a deadline not before its time is over, or the largest number if that cannot be represented. |
| Scheduler.Tasks.Create | src/kernel/task.c:149-199 | A new task is ready, has a new id, and is last in the list. |
| Regions.TotalIsCovered | src/kernel/process.c:586-698 | For disjoint regions the sizes add up to the number of addresses covered. |
| Regions.CutTotal | src/kernel/process.c:678-696 | Cutting a covered range out takes exactly its length off the total. |
| Regions.AddRegion | src/kernel/process.c:618-623 | A region placed in a gap changes access there and nowhere else. |
| Regions.ArgumentsAre | src/kernel/process.c:595-604 | The overflow-safe tests of mmap and munmap accept exactly readable protections that are not both writable and executable, and page-aligned ranges inside the mapping window. |
| Regions.CutStep | src/kernel/process.c:682-689 | Trimming or dropping a region keeps access outside the range. |
| Regions.SplitStep | src/kernel/process.c:690-694 | Splitting a region in two keeps access outside the range, and leaves at most one region to be split. |
| Regions.Process.Exec | src/kernel/process.c:143-222 | A fresh image has no regions, an empty heap, and its pages on the account. |
| Regions.Process.Fork | src/kernel/process.c:374-414 | The child's record equals the parent's. |
| Regions.Process.RegionInTheWay | src/kernel/process.c:553-561 | The end of the highest region over the block, or zero exactly if there is none. |
| Regions.Process.Occupied | src/kernel/process.c:567-576 | True exactly if some page of the block is mapped. |
| Regions.Process.Search | src/kernel/process.c:551-581 | Terminates, and finds the lowest gap from the start address on, or none exactly if there is none. |
| Regions.Process.SelectAddress | src/kernel/process.c:540-584 | A complete first fit: the lowest gap at or above the hint, else the lowest of the window; fails exactly if the window has no gap of that length. |
| Regions.Process.Mmap | src/kernel/process.c:586-625 | On success a first-fit region with the protection asked for, on the account; each error exactly under its condition, with nothing changed. |
| Regions.Process.FindCovering | src/kernel/process.c:627-635 | Finds a region over an address exactly if there is one. |
| Regions.Process.AllCovered | src/kernel/process.c:648-657 | The walk from region to region decides whether every address is covered. |
| Regions.Process.SplitSlot | src/kernel/process.c:659-670 | Finds out whether a region must be split, and a slot for the piece behind. |
| Regions.Process.UnmapPages | src/kernel/process.c:672-676 | Exactly the resident pages of the range go. |
| Regions.Process.CutRegions | src/kernel/process.c:678-695 | Access ends inside the range and is unchanged outside, wherever the regions lie in the table. |
| Regions.Process.Munmap | src/kernel/process.c:637-698 | On success exactly the requested pages lose access, memory and account, and all others keep their protection; each error exactly under its condition, with nothing changed. |
| Regions.Process.Brk | src/kernel/process.c:419-471 | The account equals image, heap and region pages and stays within the limit; shrinking drops exactly the pages behind the new break; each error exactly under its condition. |
| Regions.Process.FaultProtection | src/kernel/process.c:489-500 | What a fault may map is what the heap or the region allows, never both writable and executable, and nothing exactly where access is not allowed. |
| KernelHeap.PayloadsDisjoint | src/mm/kmalloc.c:145-170 | Live payloads are 16-aligned, inside the mapped heap and disjoint. |
| KernelHeap.BytesAddUp | src/mm/kmalloc.c:202-220 | Used bytes, free bytes and headers make up the mapped heap. |
| KernelHeap.BytesMove | src/mm/kmalloc.c:202-220 | Taking a block moves its bytes from the free ones to the used ones. |
| KernelHeap.SplitLinked | src/mm/kmalloc.c:98-114 | The header writes of a split leave the two-way list of the split blocks. |
| KernelHeap.MergeLinked | src/mm/kmalloc.c:116-125 | The header writes of a merge leave the two-way list of the merged blocks. |
| KernelHeap.Heap.constructor | src/mm/kmalloc.c:26-29 | The state before the first growth: nothing mapped, nothing allocated. |
| KernelHeap.Init | src/mm/kmalloc.c:138-143 | Setting up the heap leaves one free block over four pages, and fails exactly if four pages cannot be had. |
| KernelHeap.OneFreeBlock | src/mm/kmalloc.c:45-96 | A heap without live blocks is a single free block. |
| KernelHeap.Heap.Split | src/mm/kmalloc.c:98-114 | Splits a block exactly if the rest can hold a header and 16 bytes. |
| KernelHeap.Heap.MergeWithNext | src/mm/kmalloc.c:116-125 | Takes over the next block exactly if it is free; live payloads stay. |
| KernelHeap.Heap.MergeBack | src/mm/kmalloc.c:193-196 | With the follower in use, joining a free predecessor leaves no two free neighbours anywhere; live payloads stay. |
| KernelHeap.Heap.FindBlock | src/mm/kmalloc.c:127-136 | Finds the block of a payload address exactly if there is one. |
| KernelHeap.Heap.Kfree | src/mm/kmalloc.c:172-200 | Succeeds exactly on a live payload address, ends exactly that payload, and leaves no two free neighbours. |
| KernelHeap.Heap.Release | src/mm/kmalloc.c:190-196 | Merging with both neighbours keeps the tiling, the links, and every other payload. |
| KernelHeap.Heap.MapPages | src/mm/kmalloc.c:54-76 | All of the pages or none. |
| KernelHeap.Heap.Grow | src/mm/kmalloc.c:45-96 | Grows by whole pages into one free block at the end that is large enough, or changes nothing; fails exactly beyond 256 MiB or without pages. |
| KernelHeap.Growth | src/mm/kmalloc.c:45-50 | The fewest whole pages that hold the payload and a header, but at least four. |
| KernelHeap.Heap.LastBlock | src/mm/kmalloc.c:36-43 | The end of the list. |
| KernelHeap.Heap.FindFit | src/mm/kmalloc.c:153-163 | The first free block that is large enough; nothing exactly if there is none. |
| KernelHeap.Heap.Kmalloc | src/mm/kmalloc.c:145-170 | Ends after at most one growth; one new payload, from the first block it fits in, of the rounded size up to less than a header and 16 bytes more; fails exactly for a bad size or when the heap must but cannot grow. |
| KernelHeap.Heap.Stats | src/mm/kmalloc.c:202-220 | The statistics are exact, and add up to the mapped bytes with the headers. |
| FatVolume.ExtendChain | src/fs/fat32.c:960-965 | Linking a free cluster behind a chain gives the longer chain, without cycles. |
| FatVolume.CutChain | src/fs/fat32.c:966-969 | Ending a chain early gives its beginning. |
| FatVolume.OneTaken | src/fs/fat32.c:960-965 | Growing a chain takes one free cluster and changes no other file's entry. |
| FatVolume.Volume.Mount | src/fs/fat32.c:40-63 | Mounting takes over a well-formed volume with its root directory, files and chains as they are. |
| FatVolume.Volume.UpdateFat | src/fs/fat32.c:66-78 | All copies of the table change alike. |
| FatVolume.ReservedBits | src/fs/fat32.c:93-99 | The four reserved bits of a table entry do not matter. |
| FatVolume.Volume.AllocateCluster | src/fs/fat32.c:80-91 | Takes the first free cluster as the end of a chain; fails exactly if none is free. |
| FatVolume.Volume.Create | src/fs/fat32.c:918-936 | A new file is empty, with a chain of its own, and its slots in the directory hold its name and say where it is. It succeeds exactly if there is a cluster for the file and then room for the name. Clusters move only from the free ones to the file and behind the directory; a failure gives the file's cluster back, and leaves all other free clusters behind the directory exactly if it failed for want of room there. |
| FatVolume.Volume.EnterFile | src/fs/fat32.c:931-935 | The same, from the point where the file's cluster has been found. |
| FatVolume.Volume.DropCluster | src/fs/fat32.c:931-934 | The unused cluster is free again and no content changes. |
| FatVolume.Volume.AdoptCluster | src/fs/fat32.c:926-931 | The new cluster becomes the whole of a new, empty file; no other content changes. |
| FatVolume.FailureKeepsCluster | src/fs/fat32.c:396-414 | That a failed creation gives back all it took does not hold: with a full directory of one cluster and two free clusters, a name of twenty-one slots leaves one cluster behind the directory. |
| FatVolume.Volume.ScanDirectory | src/fs/fat32.c:370-395 | The search along a directory stops at the end of the first run of free slots that is long enough, or has seen all and found none. |
| FatVolume.Volume.ScanSector | src/fs/fat32.c:377-391 | The search within a sector goes on from the state it is in, and stops as soon as the run is long enough. |
| FatVolume.Volume.TakeSlots | src/fs/fat32.c:400-411 | A new cluster is cleared sector by sector as far as its slots are needed, and its slots continue the run. |
| FatVolume.Volume.GrowDirectory | src/fs/fat32.c:396-414 | Links no more clusters behind the directory than are needed, from the free ones, and stops short only when none is left; files keep their bytes. |
| FatVolume.Volume.FindFreeSlots | src/fs/fat32.c:363-415 | The slots follow each other, as early in the directory as possible, and none of them is in use; fails exactly if neither the directory nor the free clusters have room. |
| FatVolume.Volume.NameEntry | src/fs/fat32.c:537-592 | The entry goes into free slots, one after the other; every other slot of the directory and everything outside it stays as it is. |
| FatVolume.Volume.WriteSlots | src/fs/fat32.c:576-592 | Each slot holds its item and no other slot changes. |
| FatVolume.EntriesKept | src/fs/fat32.c:537-592 | Entering a name overwrites no entry in use and hides none behind an end mark, and the new entry is in use itself. |
| FatSlots.RunIsTail | src/fs/fat32.c:380-391 | The search's run is the longest run of free slots at the end of what it has seen, where a slot is free if it is marked so or lies behind the end mark. |
| FatSlots.FoundRun | src/fs/fat32.c:384-389 | A run that is long enough consists of free slots, and the slot before it is in use. |
| FatSlots.NoRun | src/fs/fat32.c:370-395 | If the search never gets a run of the wanted length, there is none. |
| FatSlots.PlacesDistinct | src/fs/fat32.c:370-395 | Along a chain without repetition no slot comes twice. |
| FatSlots.EntryReads | src/fs/fat32.c:582-591 | A new short entry is read back with its alias, its first cluster and size zero. |
| FatSlots.ShortEntryLayout | src/fs/fat32.c:582-592 | Each byte of a new short entry: the alias, the attributes, the two halves of the cluster number, zeros. |
| FatSlots.SizeLayout | src/fs/fat32.c:994-997 | The size is the little-endian number in the last four bytes. |
| FatSlots.SizeReads | src/fs/fat32.c:994-997 | Storing a new size changes nothing else that is read from an entry. |
| FatVolume.Volume.FreeChain | src/fs/fat32.c:970-975 | Walking a chain while freeing it frees exactly its clusters. |
| FatVolume.Volume.Unlink | src/fs/fat32.c:1000-1018 | The entry's slots are marked as deleted and exactly the file's clusters become free; other files keep their bytes, and directories are refused. |
| FatVolume.Volume.MarkDeleted | src/fs/fat32.c:639-653 | Only the first byte of each slot of the entry changes. |
| FatVolume.Volume.Read | src/fs/fat32.c:884-916 | The first bytes of the file, as many as there is room for; nothing exactly for a directory. |
| FatVolume.Volume.Collect | src/fs/fat32.c:951-957 | The first 32 clusters of the file. |
| FatVolume.Volume.ExtendTo | src/fs/fat32.c:960-965 | Makes a chain long enough exactly if enough clusters are free, without changing any file's bytes. |
| FatVolume.Volume.Shorten | src/fs/fat32.c:966-976 | Gives back exactly the clusters no longer needed. |
| FatVolume.Volume.WriteData | src/fs/fat32.c:977-993 | The clusters hold the buffer, padded with zeros; no other cluster changes. |
| FatVolume.Volume.Write | src/fs/fat32.c:938-998 | After a write the file holds exactly the buffer and its entry says how long it is; other files keep chains and bytes, and nothing else on disk changes; clusters only move between this file and the free ones. Fails for a directory, and exactly when more than 32 clusters or more than there are would be needed. |
| FatVolume.Required | src/fs/fat32.c:947-950 | The fewest clusters that hold the bytes, and at least one. |
| FatVolume.Volume.WriteFile | src/fs/fat32.c:946-993 | The same without the entry. |
| FatRuns.CreatedFiled | src/fs/fat32.c:918-936 | After a creation every file still has an entry of its own on disk that says where it is and how long. |
| FatRuns.RefusedFiled | src/fs/fat32.c:396-414 | After a failed creation too, wherever it has made the directory longer. |
| FatRuns.WrittenFiled | src/fs/fat32.c:938-998 | After a write too. |
| FatRuns.UnlinkedFiled | src/fs/fat32.c:1000-1018 | After an unlink the other files keep their entries. |
| FatRuns.Perform | src/fs/fat32.c:884-1018 | Each operation answers as a map from files to bytes would, and keeps files and directory entries in agreement. |
| FatRuns.Serve | src/fs/fat32.c:884-1018 | Every run of creations, writes, unlinks and reads: the volume stays well formed, every file has its own entry on disk that describes it, and the answers are those of a map. |
| FatRuns.ReadsBack | src/fs/fat32.c:884-998 | In every run a write followed by a read returns the same bytes, whatever is done to other files in between. |
| FatRuns.NameReadsBack | src/fs/fat32.c:430-592 | The slots of an entered long name, scanned in order from any state, decode to that name against the alias on disk, exactly when it has no U+FFFF. |
| LongName.Read8Write8 | src/fs/fat32.c:142-175 | What the UTF-8 reader accepts is exactly the UTF-8 form of the character it returns. |
| LongName.Write8Read8 | src/fs/fat32.c:142-175 | The UTF-8 form of every Unicode scalar value is accepted and read as that value. |
| LongName.EncodeExact | src/fs/fat32.c:133-197 | The encoder accepts exactly the UTF-8 forms of permitted character sequences of at most 255 units, without blanks at the ends or a final dot, and yields their UTF-16 form. |
| LongName.ForbiddenIs | src/fs/fat32.c:176-180 | Control characters and nine signs may not stand in a name. |
| LongName.NameEndsIs | src/fs/fat32.c:138-140 | A name neither begins with a space nor ends with a space or a full stop. |
| LongName.KnownCharacters | src/fs/fat32.c:142-192 | The forms of characters of one, two, three and four bytes, and of one and two units. |
| LongName.NameRoundTrip | src/fs/fat32.c:133-236 | Decoding an encoded name gives it back exactly when the character U+FFFF is not in it. |
| LongName.NoncharacterLost | src/fs/fat32.c:199-202 | A name of the one character U+FFFF is accepted and decoded to the empty name. |
| LongName.EncodeName | src/fs/fat32.c:133-197 | The loop with its unit limits computes the encoding. |
| LongName.DecodeUnits | src/fs/fat32.c:199-236 | The loop with its capacity checks computes the decoding. |
| LongName.MakeSlot | src/fs/fat32.c:560-574 | A slot holds its ordinal, its mark, the checksum, and thirteen units with terminator and padding. |
| LongName.SlotUnique | src/fs/fat32.c:560-574 | The layout is complete: name, ordinal, mark and checksum fix every byte of a slot. |
| LongName.Position | src/fs/fat32.c:556-557 | The formula gives the thirteen byte positions of the on-disk format. |
| LongName.PaddedIs | src/fs/fat32.c:569-573 | The units of the slots are the name, a zero if there is room, and 0xFFFF up to the end. |
| LongName.ChecksumIs | src/fs/fat32.c:253-258 | The checksum starts at zero, and for each byte its eight bits turn right by one before the byte is added. |
| LongName.MakeSlots | src/fs/fat32.c:558-581 | The slots of a name, in descending ordinals. |
| LongName.SlotsTaken | src/fs/fat32.c:430-457 | Reading the slots in order collects the units of the name, from whatever state the reader was in. |
| LongName.LongNameRoundTrip | src/fs/fat32.c:430-581 | The slots written for an accepted name with the alias's checksum decode to exactly that name, exactly when the character U+FFFF is not in it. |
| LongName.OnlyWholeNames | src/fs/fat32.c:430-471 | A long name is used only if the slots right before the short entry are all of its slots, in descending order and each with the checksum of the alias; its units are those of the slots. |
| LongName.LfnState.constructor | src/fs/fat32.c:424-428 | A reader that has seen nothing. |
| LongName.LfnState.AddEntry | src/fs/fat32.c:430-457 | The state after one slot; a slot out of turn resets the reader. |
| LongName.LfnState.DecodeEntry | src/fs/fat32.c:459-471 | Decodes only a complete run with the right checksum. |
| Locks.OperationsDisciplined | src/mm/kmalloc.c:150-168 | Heap, stack, page-table and page-allocator operations take locks in rank order and give them back, whatever they call. |
| Locks.StepKeepsOk | src/cpu/spinlock.h:11-24 | Every step of every processor keeps mutual exclusion, interrupts off while a lock is held, and the rank order. |
| Locks.EveryHistory | src/cpu/spinlock.h:11-24 | The same in every history of any number of processors. |
| Locks.NoDeadlock | src/cpu/spinlock.h:11-24 | Whenever some processor spins, some processor can go on. |
| Locks.GoesOn | src/cpu/spinlock.h:11-24 | Going on is a step that changes the state. |
| Locks.OneHolder | src/cpu/spinlock.h:11-24 | At most one processor holds a lock, with interrupts off. |
| Locks.FlagRestored | src/cpu/spinlock.h:21-24 | Giving back the outermost lock restores the interrupt flag from before it was taken. |
| Elf.MapNext | src/kernel/elf.c:80-91 | One page: refused exactly if it is translated already, out of memory only at the user reserve. |
| Elf.MapSegment | src/kernel/elf.c:78-92 | Fresh zeroed pages for the whole segment, each on its own frame; other pages translate as before. |
| Elf.CopySegment | src/kernel/elf.c:94-106 | Copying through physical addresses stores exactly the file bytes, also in read-only pages. |
| Elf.LoadSegment | src/kernel/elf.c:59-108 | The segment reads back as its file bytes, zeros around them, in pages that are writable exactly if the header says so and executable exactly if it says so; with memory to spare it succeeds exactly for a well-formed segment on unmapped pages. Pages of other spaces are left alone. |
| Elf.StaysInPlace | src/kernel/elf.c:140-169 | A segment in place stays in place when another one is loaded. |
| Elf.LoadNext | src/kernel/elf.c:141-168 | One loadable segment, with the running end and page total. |
| Elf.Load | src/kernel/elf.c:110-179 | On success every segment is in place, the end is the highest segment end and below the stack guard, the page count is the number of pages added and within the limit, every address of a segment translates to a user page writable and executable exactly as its header says, and the entry point to one that can be executed; it is refused as invalid exactly if the image is not loadable, and runs out of memory only at the reserve or the page limit. |
| Elf.ImageUsable | src/kernel/elf.c:71-76 | Segments in place are translated for the uses of their headers, and an entry point in an executable one can be executed. |
| Elf.SegmentIs | src/kernel/elf.c:62-67 | The overflow-safe tests accept exactly the headers whose bytes lie in the file and whose memory lies in the lower half, and that are not both writable and executable. |
| Elf.CountPages | src/kernel/elf.c:147-154 | The pages a segment touches. |
| Faults.PageFault | src/kernel/process.c:473-524 | A fault maps one zeroed page that is writable and executable exactly as the heap or the region there permits, or gives a copy-on-write page of its own, or changes nothing; when it reports success the access that faulted is allowed. It declines exactly the faults that are not the program's, not permitted, or not about a copy-on-write page, and reports lack of memory only when the reserve is all that is left. |
| Faults.CowFault | src/kernel/process.c:483-487 | A write to a page that is there is handled exactly if the page is copy-on-write, and the page is then writable. |
| Faults.FirstAccess | src/kernel/process.c:502-523 | The first access maps a zeroed page exactly if none is there and memory is left, writable and executable exactly as permitted, and the record of resident pages stays what the tables translate. |
| Faults.FlagsAllowed | src/kernel/process.c:514-519 | No protection of a region or the heap gives flags that the manager refuses. |
| Kernel.FirstCounts | src/mm/pmm.c:108-138 | The allocator's first state agrees with the loader's tables, none of which it manages. |
| Kernel.NoUserPages | src/mm/vmm.c:241-290 | Boot protection leaves no page that programs may use. |
| Kernel.Start | src/kernel/kernel.c:46-60 | From the memory map and the loader's tables to a manager in a valid state: no process, no user page, every kernel page guarded as boot protection promises, and the pages taken when the processors start counted as the kernel's own. |
| Kernel.Handle | src/mm/vmm.c:187-676 | Every request, whether it succeeds or not, keeps the state valid and has its effect on private memories and rights and no other. |
| Kernel.Serve | src/mm/vmm.c:115-676 | Every run of requests: in every state ownership is exact, no page is both writable and executable and no kernel page is a user page; programs see private memories with private rights. The requests are space creation, first accesses, stores, copies, program loading, forks, unmapping, process ends, and the kernel's own mapping, unmapping, allocation and freeing. |
| Kernel.Lifetime | src/kernel/kernel.c:46-60 | The same from power-on: the run starts in the state that boot leaves, without processes and user pages. |
| Kernel.EffectApart | src/mm/vmm.c:612-676 | A request for another space leaves a live space alive, and its bytes and rights alone. |
| Kernel.Apart | src/mm/vmm.c:115-203 | Isolation over every run of requests: what a live space reads, and what it may do with it, changes only by requests of its own. |

## Left out

- Hardware effects: TLB and CR3 updates, the context switch, descriptor tables, and interrupt entry; a page-table update is visible at once.
- NULL-pointer guards and lookups of the current process or space; the object is a parameter.
- The packing of the bitmap into bytes and of page-table entries into 64-bit words: bits and fields are separate values, and no operation here overflows them.
- Equality of the upper halves of all spaces: top-level entries are copied by value when a space is made, and kernel unmaps may prune later. Claims are per space, for its lower half, and for the kernel's space.
- Vmm.Manager.CopyUpperHalf: the copied upper-half entries are not followed; a process's translation is modelled for the lower half only.
- Vmm.Manager.CopyShared: the copy of the 4096 bytes is one step, and the test for a count of zero is not modelled because no counted page has it.
- Vmm.Manager.CloneSpaceCow: the failure reasons are necessary, not sufficient; a count at half of its limit does not always stop a fork.
- Vmm.Manager.CreateSpace: that too few free pages make it fail is proved in one direction only.
- UserMemory.UnmapAndFree: asks that a mapped page be a user page, as the callers in process.c ensure.
- Vmm.Manager.Query: asks for an address in the lower half unless the space is the kernel's; upper-half entries of a process are copies that may be stale. The same holds for Vmm.Manager.ResolveCow, UserMemory.ResolvePage and Faults.PageFault.
- Boot.Pager.Protect: asks that the loader's tables form a tree and leave the copy-on-write bit clear.
- Pmm.Init: asks what the boot protocol promises, usable regions of whole pages that do not overlap.
- Regions.Process.Brk: the zeroing of retained heap bytes (src/kernel/process.c:442-455) is left out; it writes through the translation without resolving copy-on-write.
- Regions.Process.Fork: the rest of process_fork, its task, launch record and roll-backs, is not part of this model.
- Regions.Process.Exec: stands for create_process_image once the image is loaded; the argument stack is not part of this model.
- Regions.Process.UnmapPages: page tables appear in `Regions` as the set of resident pages; what unmapping does to the tables is `Vmm.Manager.UnmapPage`.
- System calls on pages that are not resident yet: copy_user refuses them, and so does the model.
- KernelHeap.Heap.MapPages: how many pages the allocator and the page tables can supply is a parameter.
- KernelHeap.Heap.FindBlock: the early exit for a damaged header is not modelled; the invariant keeps headers intact.
- Vfs.Files.EnsureStandard: runs with interrupts on in the source and is one step here; the same holds for Vfs.Files.InheritStandard.
- Vfs.Files.Open: path resolution, the file systems behind it, and creation are parameters or left out; reading and writing files through descriptors, seeking, mounts and directories are left out.
- PipeProtocol.CallIsStep: asks that a process whose descriptors are closed is not inside a pipe call. Processes close their own, but process_run_hello makes a child while others may run, so the child could be inside a call when vfs_inherit_standard closes its descriptors; that interleaving is not covered.
- Scheduler.Tasks.Create: allocating its record and stacks is left out.
- FatVolume.Volume.Create: resolving paths, looking a name up, and choosing the short alias are a parameter (the slots a name gets, if it may be entered). Making and removing directories is left out.
- FatVolume.Volume.FindFreeSlots: asks that the directory has at most 65536 clusters, which is how far the search follows a chain; what lies in the slots behind an overwritten end mark is not claimed.
- FatVolume.Volume.Unlink: which slots belong to the entry is a parameter; FatRuns.Serve supplies the ones the file was entered in.
- FatRuns.Serve: asks that no directory would outgrow 65536 clusters if every operation of the run added two.
- FatVolume.Volume.Write: sectors always work, the data area has room for every entry of the table, and the byte layout of table entries is left out.
- LongName.LfnState.AddEntry: asks for a 32-byte entry that is not the end marker, as the directory scan passes it.
- LongName.LfnState.DecodeEntry: asks for a capacity of at least one byte.
- Kernel.Serve: requests for spaces that are not live, and for frames that are not held, are refused, as the process table and the callers do; unmapping asks for a user page, which is looked up first. The zeroing in process_brk is not among the requests.
- Elf.Load: the checks of the file header are one parameter; program headers are records.
- Locks.OperationsDisciplined: which calls an operation makes under its lock is a parameter; locks outside src/mm are not part of this model.
- Device drivers, interrupt controllers, initramfs, ramfs, devfs, path normalisation, shells and userspace: left out, as easier or device-bound.
