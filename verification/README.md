# HimuOS in Dafny

HimuOS is an x86-64 kernel written in C. This project models the parts of it that are hard to get
right and proves what they promise, for every input, every run and every reachable state:

- **Page tables** (`Paging`, `PageTree`, `PageSubtree`, `AddressSpace`, `AddressSpaceRuns`, `Mmu`,
  `Machine`).
  The four-level tree of x86-64 is a heap of 512-entry tables; `Translate` is the abstract map from
  virtual page to leaf. `AddressSpace` gives each call as a function on that state, `Machine` is the
  code itself, with its undo logs and loops, proved equal to it. `Mmu` is the hardware's own walk, with the
  rights of all entries on the way: what a map, a protect and an unmap do to an access.
- **Boot page tables** (`BootMapping`, `BootPager`): 1GB, 2MB and 4KB leaves over a bump allocator.
- **User staging and user copies** (`UserStaging`, `UserCopy`) on top of `Machine`.
- **The kernel object pool** (`PoolGeometry`, `PoolModel`, `ObjectPool`, `PoolRaces`, `PoolAlone`): the
  intrusive lists in memory, any interleaving of allocations, frees and a destroy, and what it comes to for a
  call that runs alone.
- **Executive objects** (`Handles`, `Executive`, `ExecutiveInv`, `ExecutiveRefs`, `ExecutiveSteps`,
  `ExecutiveRuns`, `ExecutiveHistory`, `ExecutiveParents`, `ExecutiveProgress`, `ExecutiveLaunch`): handle tables in place, and reference counts,
  tables and the create/start/terminate/finalize/wait protocol as a state machine. The slots of a process
  in the state machine are the slots of `Handles`; every step takes or clears a slot as that module does, and
  what a handle names after a run is decided by how often the run has closed its slot.
- **IRQL guards, critical sections, interrupts** (`Irql`) and **the keyboard line** (`InputLine`).
- **ELF loading** (`Elf`, `ElfFormat`, `ElfSample`) and **printing and parsing integers** (`Digits`, `Numbers`, `Calculator`).
- `Arithmetic`, `Option` and `Status` hold what these share.

`dafny verify dfyconfig.toml` checks the whole project.

How the models are set up:

- A page-table entry is the exact split of its 64-bit word into flag bits and bits 12 to 63
  (`Paging.PteOfWord`). The tree invariant says that an entry that leads to a table
  holds exactly the address of that table and no high flag bits, that absent entries above the last
  level are zero, that page numbers are below 2^40, and that no table has two parents.
- The physical page allocator is a set of free pages. Each call that may allocate takes the pages the
  allocator hands out as an argument, so every statement holds for every choice it can make. A request
  for one page fails exactly when no page is free.
- Heap, fixmap, const-block builder and scheduler answers are arguments too: any of them may fail at
  any point.
- A failed kernel assertion is a result of the call (`ok == false`), not a precondition, so that the
  contracts say exactly when each assertion holds.
- An executive process carries the call that is at work on it and how far that call has come; every
  retain, release and critical section is one step.
- Where the code and its own comments disagree, the code is followed. `HO_ALIGN_UP` is applied to slot
  sizes that are not powers of two and then yields the largest power of two dividing the slot size;
  `KePtProtectPage` sets `PTE_USER` on a leaf without promoting the entries above it; `HobAlloc`
  never pads, so that a block has the alignment asked for only by chance; `Elf64LoadToBuffer` subtracts
  `p_filesz` from the image size before comparing them, so that a larger `p_filesz` can pass; `KePoolInit`
  computes sizes and page counts in sums that can wrap; `KeDestroyProcessAddressSpace` walks the low half of
  a root only, so that tables a process root has below its high half are never given back. For each of these
  one member gives a failing input and another the exact condition: `HeaderCanMisalign` and
  `HeaderAlignedExactly`, `UnpromotedPageExists` and `ProtectUserExactly`, `MisalignedBlock` and
  `BumpAllocator.Alloc`, `SourceTestCanFail` and `ReadsBeyond`, `CapacityCanWrap` and `CapacityMet`,
  `SlotCanBeTooSmall` and `SlotHoldsObject`, `LeakExists` and `RunRestores`.

## Model

| member | source | states |
|---|---|---|
| Paging.PteOfWord | src/include/arch/amd64/pm.h:108-136 | the word of a record of flags and bits 12 to 63 reads back as that record |
| Paging.WordBits | src/include/arch/amd64/pm.h:108-136 | where each flag and the page number are in the 64-bit word |
| Paging.LeafWord | src/kernel/ke/mm/address_space.c:15-18 | the word of a leaf: the physical page, PTE_PRESENT and the allowed flags, PTE_NO_EXECUTE in bit 63 |
| Paging.TableWord | src/kernel/ke/mm/address_space.c:71-80 | the word of an entry that leads to a table: present, writable, and user for a user leaf |
| Paging.IndexOfAddress | src/include/arch/amd64/pm.h:139-142 | the four table indices of an address are the nine-bit digits of its page number |
| PageTree.LinkThenUnlink | src/kernel/ke/mm/address_space.c:155-164 | taking a newly linked table out again restores every table word and the free set |
| PageTree.SetEntryElsewhere | src/kernel/ke/mm/address_space.c:882-892 | writing one entry changes no walk that does not pass through that entry |
| PageTree.LeafBitDecides | src/kernel/ke/mm/address_space.c:82-107 | when user leaves have user entries above them, user reachability is the leaf's own bit |
| AddressSpace.EnsureChildKeeps | src/kernel/ke/mm/address_space.c:186-232 | making or promoting a child table keeps the tree a tree, all translations and all tables of other owners |
| AddressSpace.DescendKeeps | src/kernel/ke/mm/address_space.c:855-880 | the three levels of table setup keep the invariant and every translation, wherever they stop |
| AddressSpace.DescendOutcome | src/kernel/ke/mm/address_space.c:855-880 | a descent gets through exactly when no large leaf is in the way and there are as many pages as missing tables, and it takes exactly those |
| AddressSpace.MapPageCorrect | src/kernel/ke/mm/address_space.c:832-893 | through any root and at any address a successful map sets exactly one page's translation, to the leaf that Mmu.MapLeaf describes, and a failed one changes nothing; each status is given exactly when its condition holds, OutOfResource exactly for a hole with fewer pages than tables missing on its path; success takes that many pages |
| AddressSpace.ChangeLeafCorrect | src/kernel/ke/mm/address_space.c:895-940 | through any root and at any address, unmap and protect succeed exactly on present 4KB leaves, change that one page only, and otherwise nothing |
| AddressSpace.SharedAlike | src/kernel/ke/mm/address_space.c:343-350 | a page under a shared entry has one translation through every root that has the entry |
| AddressSpace.SeenByAll | src/kernel/ke/mm/address_space.c:832-940 | a change made through one process root to a shared page is the translation of that page through the kernel root and every root that shares it |
| AddressSpaceRuns.CreateRootCorrect | src/kernel/ke/mm/address_space.c:660-686 | a new root takes one free page, shares the kernel half, has an empty low half and changes no translation |
| AddressSpaceRuns.DestroyRootCorrect | src/kernel/ke/mm/address_space.c:688-726 | destroying a root frees its page and each table below its low half, once, and no shared table; the tables below its high half stay allocated and no root leads to them; everything of other owners stays |
| AddressSpaceRuns.RunKeeps | src/kernel/ke/mm/address_space.c:660-726 | any run of create, map, unmap, protect and destroy on any roots and addresses keeps the tree invariant, the pages in use overall, the lost pages and all tables of untouched roots |
| AddressSpaceRuns.RunIsolation | src/kernel/ke/mm/address_space.c:832-893 | over any run that leaves a root alone (and the kernel root, where the page lies in kernel tables) neither a translation nor the user reachability of a page through it changes |
| AddressSpaceRuns.RunTranslation | src/kernel/ke/mm/address_space.c:660-940 | over any run on whatever roots a page keeps its translation through a root unless a call works on that very page, in tables of the root or of the kernel, or destroys the root |
| AddressSpaceRuns.RunRestores | src/kernel/ke/mm/address_space.c:660-726 | create any roots, map and unmap at will, destroy them all: every table is as before and every free page except those lost; the whole state is as before if and only if no page has been lost |
| AddressSpaceRuns.RunLosesNothing | src/kernel/ke/mm/address_space.c:688-726 | runs that map no page of the high half through a process root with an empty entry lose no page |
| AddressSpaceRuns.LowRunsRestore | src/kernel/ke/mm/address_space.c:660-726 | so that such runs restore the whole state, free set included |
| AddressSpaceRuns.HighMapLeaks | src/kernel/ke/mm/address_space.c:688-726 | every such map that succeeds costs at least the table of its leaf once the root is destroyed: it is in use, not free, and reached from no root |
| AddressSpaceRuns.LeakExists | src/kernel/ke/mm/address_space.c:688-726 | a concrete create, map and destroy that loses a page |
| AddressSpaceRuns.MapKeepsUserClosed | src/kernel/ke/mm/address_space.c:71-80 | mapping through any root promotes every entry above a user leaf |
| AddressSpaceRuns.RunUserAccessible | src/kernel/ke/mm/address_space.c:82-107 | over every run whose protects add no PTE_USER, UserAccessible of a page on a private path equals the leaf's own bit |
| AddressSpaceRuns.MapKeepsReachability | src/kernel/ke/mm/address_space.c:166-232 | mapping a page, or failing and rolling back, never changes whether user mode reaches another page |
| AddressSpaceRuns.ProtectUserExactly | src/kernel/ke/mm/address_space.c:918-940 | protecting with PTE_USER makes the page user accessible if and only if every entry above already allows it |
| AddressSpaceRuns.ProtectWithoutPromotion | src/kernel/ke/mm/address_space.c:918-940 | a page mapped first without PTE_USER and then protected with it has the leaf bit and is not user accessible |
| AddressSpaceRuns.UnpromotedPageExists | src/kernel/ke/mm/address_space.c:934-938 | such a page exists in a concrete three-call run |
| Mmu.AccessIs | src/kernel/ke/mm/address_space.c:234-295 | the hardware walk, which combines the rights of every entry it passes, finds the leaf that the abstract walk finds, or faults |
| Mmu.RunKeepsWritable | src/kernel/ke/mm/address_space.c:71-80 | over every run on any roots all entries that lead to tables carry PTE_WRITABLE, so that the leaf decides on writing |
| Mmu.MapLeaf | src/kernel/ke/mm/address_space.c:887-893 | after a successful map the leaf is a 4KB one with the given physical page, the attributes' writable, user, write-through, cache-disable, global and no-execute flags, and no other bit |
| Mmu.MapAccess | src/kernel/ke/mm/address_space.c:832-893 | an access to a mapped page comes to its physical page, with exactly the rights of the attributes to write, from user mode and to execute |
| Mmu.ProtectLeaf | src/kernel/ke/mm/address_space.c:918-940 | protecting keeps the physical page and the accessed and dirty bits and takes all other flags from the attributes |
| Mmu.ProtectAccess | src/kernel/ke/mm/address_space.c:918-940 | a protected page stays where it was; writing and executing are as the attributes say, user mode as they and the entries above say |
| Mmu.UnmapAccess | src/kernel/ke/mm/address_space.c:895-916 | an unmapped page faults |
| PageSubtree.BelowStep | src/kernel/ke/mm/address_space.c:352-385 | the tables below a table are those below its first k entries plus the next child's subtree, disjointly |
| PageSubtree.OwnedIsSub | src/kernel/ke/mm/address_space.c:352-385 | what a root owns is exactly the subtree reached from it |
| PageSubtree.LowBelow | src/kernel/ke/mm/address_space.c:688-726 | the tables below the first 256 entries of a process root, and the root, are exactly the owned tables with a low prefix |
| Machine.WalkMeans | src/kernel/ke/mm/address_space.c:234-295 | what the walk structure records is the abstract walk |
| Machine.UndoLinkNew | src/kernel/ke/mm/address_space.c:155-164 | undoing the table log with one more entry first undoes that entry |
| Machine.UndoPromote | src/kernel/ke/mm/address_space.c:166-174 | undoing the promotion log restores the flags as they were |
| Machine.Machine.EnsureChildTable | src/kernel/ke/mm/address_space.c:186-232 | the in-place code does what EnsureChild says and logs what it did |
| Machine.Machine.RollbackNewTables | src/kernel/ke/mm/address_space.c:155-164 | the loop undoes the whole table log |
| Machine.Machine.RollbackEntryPromotions | src/kernel/ke/mm/address_space.c:166-174 | the loop undoes the whole promotion log |
| Machine.Machine.RollbackMapSetup | src/kernel/ke/mm/address_space.c:176-184 | both logs undone: the state is the one before the call |
| Machine.Machine.MapPage | src/kernel/ke/mm/address_space.c:832-893 | KePtMapPage with its logs and early exits equals AddressSpace.MapPage for every root and address (what that leaves is Mmu.MapLeaf and Mmu.MapAccess); it succeeds exactly for an aligned hole with enough free pages for the missing tables |
| Machine.Machine.WalkRoot | src/kernel/ke/mm/address_space.c:234-295 | the walk fails only on bad arguments and otherwise records the entries it passed |
| Machine.Machine.QueryPage | src/kernel/ke/mm/address_space.c:771-794 | present, page size, physical base and user accessibility are those of the abstract walk |
| Machine.SeenByProcessor | src/kernel/ke/mm/address_space.c:771-794 | the physical base and user accessibility that a query reports are those of the hardware walk, for leaves of every size |
| Machine.Machine.MapThenQuery | src/kernel/ke/mm/address_space.c:771-893 | mapping a page and querying it gives back its physical address and its attributes |
| Machine.Machine.UnmapPage | src/kernel/ke/mm/address_space.c:895-916 | equals AddressSpace.UnmapPage |
| Machine.Machine.ProtectPage | src/kernel/ke/mm/address_space.c:918-940 | equals AddressSpace.ProtectPage, which Mmu.ProtectLeaf and Mmu.ProtectAccess describe |
| Machine.Machine.CreateProcessAddressSpace | src/kernel/ke/mm/address_space.c:660-686 | equals AddressSpaceRuns.CreateRoot |
| Machine.Machine.DestroyOwnedSubtree | src/kernel/ke/mm/address_space.c:352-385 | frees exactly the tables below the given one, each once |
| Machine.Machine.DestroyChildren | src/kernel/ke/mm/address_space.c:352-385 | the loop over a table's entries frees the tables below the first n of them |
| Machine.Machine.DestroyProcessAddressSpace | src/kernel/ke/mm/address_space.c:688-726 | equals AddressSpaceRuns.DestroyRoot |
| UserStaging.AllocateAndMapUserPage | src/kernel/ke/user_mode.c:160-201 | a page more in the record with its translation, or nothing held and every translation as before; it succeeds exactly when the bytes do, there is room and a hole, and there are free pages for the page and its missing tables |
| UserStaging.DestroyStaging | src/kernel/ke/user_mode.c:340-394 | every recorded page is unmapped and freed once; the other translations stay |
| UserStaging.ValidateParams | src/kernel/ke/user_mode.c:83-98 | the checks in turn accept exactly code of 1 to 4096 bytes with the entry point in it and const bytes of at most 4096, present if and only if their length is not 0 |
| UserStaging.ImageMeans | src/kernel/ke/user_mode.c:293-328 | a finished staging has code, const and stack pages with their flags and holes at page 0 and the guard page; UserStaging.ProgramSees says what they allow |
| UserStaging.CreateStaging | src/kernel/ke/user_mode.c:236-337 | all pages of the layout, or no page held and no translation changed; success exactly when the parameters, the holes, the heap and the bytes are good and there are free pages for the missing tables and the pages |
| UserStaging.TeardownPayload | src/kernel/ex/process.c:88-115 | after payload teardown the root owns nothing, every page is back except tables below its high half, and no other root has changed; CR3 moves to the kernel root if it was this one; without an address space nothing happens |
| UserStaging.CreateProcess | src/kernel/ex/process.c:158-286 | it succeeds exactly when nothing outside fails, the parameters are good and 6 pages are free (7 with const bytes); whatever step fails, page tables, free set and CR3 are exactly as before; success accounts for every page, and the program then sees exactly what ProgramSees says |
| UserStaging.ProgramSees | src/kernel/ke/user_mode.c:293-328 | at every address of the low half: the code page can be executed and not written, the const page neither, the stack page written and not executed, all from user mode and each at the frame of its record; everything else faults |
| UserStaging.ProgramCanStart | src/kernel/ke/user_mode.c:297-309 | the entry point can be executed from user mode, and no page can be both written and executed |
| UserStaging.CreateThenTeardown | src/kernel/ex/process.c:88-115 | creating a process and tearing its payload down restores the whole paging state |
| UserCopy.RangeExact | src/kernel/ke/user_mode_syscall.c:33-65 | the 64-bit range test accepts a non-empty range exactly when it lies in the window |
| UserCopy.ValidatePages | src/kernel/ke/user_mode_syscall.c:68-124 | the page loop accepts exactly when every byte's page is present, user reachable and, if asked, writable |
| UserCopy.ValidateUserCopy | src/kernel/ke/user_mode_syscall.c:126-227 | a copy is accepted if and only if the range, the active root and every page allow it |
| UserCopy.StagedCopiesSafe | src/kernel/ke/user_mode_syscall.c:126-227 | in every state with the staged layout an accepted copy-out lies in the stack page and no accepted range touches the guard page |
| UserCopy.StagedCopyOut | src/kernel/ke/user_mode_syscall.c:126-227 | on what process creation returns a copy-out is accepted if and only if it lies in the stack page and the root is active |
| UserCopy.StagedCopyIn | src/kernel/ke/user_mode_syscall.c:126-227 | and a copy-in if and only if it lies in the stack page or in the code and const pages there are |
| UserCopy.CopyOutOfNewProcess | src/kernel/ex/process.c:158-286 | the code: create a process, switch to it, and the check accepts a copy-out exactly inside the stack page |
| BootMapping.LookupBlock | src/boot/v2/blmm/pagetable.c:12-130 | pages of one large leaf have the same walk |
| BootMapping.BootMapCorrect | src/boot/v2/blmm/pagetable.c:12-130 | mapping a 1GB, 2MB or 4KB leaf sets exactly the pages of that block; a failure, or finding the same mapping, changes no translation |
| BootMapping.BootOutcome | src/boot/v2/blmm/pagetable.c:12-130 | a mapping succeeds exactly when the wanted leaf is there already, with the same frame and flags, or nothing is there and no table in its place, and there are as many pages as tables missing above it |
| BootPager.BumpAllocator.Alloc | src/boot/v2/ho_balloc.c:13-47 | blocks lie in the pool one after another and never overlap; failure changes nothing but the error code; a block has the alignment asked for if and only if the end of the last one has it |
| BootPager.MisalignedBlock | src/boot/v2/ho_balloc.c:13-47 | 4KB asked for at 4KB alignment after a block of 8 bytes come out 8 bytes off |
| BootPager.Pager.EnsureTable | src/boot/v2/blmm/pagetable.c:27-47 | a missing table comes from the pool, still zero, and the tables stay a tree |
| BootPager.Pager.MapAligned | src/boot/v2/blmm/pagetable.c:25-130 | the code's levels and checks equal BootMap |
| BootPager.Pager.MapPage | src/boot/v2/blmm/pagetable.c:12-130 | the effect on translations for every supported size, whether or not the flags carry PTE_PAGE_SIZE, with addresses rounded down; other sizes are refused; a page that is mapped already may be mapped again only with the same leaf |
| BootPager.Pager.MapRegion | src/boot/v2/blmm/pagetable.c:132-180 | from any start, aligned or not, every page of the rounded region translates to its place with the flags, whatever leaves were used; all other pages keep theirs; a failure leaves a mapped prefix |
| BootPager.Pager.IsVirtualRangeMapped | src/boot/v2/blmm/capsule.c:445-503 | true if and only if every 4KB page of the range has a present leaf |
| BootPager.DetectGranularity | src/boot/v2/blmm/blmm.c:145-181 | answers 4KB, 2MB or mixed as the leaf sizes MapRegion uses on the same arguments |
| BootPager.PlanSizes | src/boot/v2/blmm/pagetable.c:146-177 | MapRegion uses only 4KB and 2MB leaves and none exactly for an empty region, so the answers exclude each other |
| PoolGeometry.HeaderIsLowBit | src/kernel/ke/mm/pool.c:42-49 | HO_ALIGN_UP of 8 to a slot size that is a multiple of 8 is the lowest set bit of the slot size |
| PoolGeometry.HeaderAlignedExactly | src/kernel/ke/mm/pool.c:42-49 | HO_ALIGN_UP of 8 is a multiple of the slot size if and only if the slot size is a power of two (its own lowest set bit) |
| PoolGeometry.HeaderCanMisalign | src/kernel/ke/mm/pool.c:42-49 | for slots of 24 bytes it gives 8 |
| PoolGeometry.LowBitLargest | src/kernel/ke/mm/pool.c:42-49 | that bit is the largest power of two dividing the slot size |
| PoolGeometry.SlotHoldsObject | src/kernel/ke/mm/pool.c:164-166 | a slot is a positive multiple of 8, holds the object if and only if rounding the size up does not overflow, and is no larger than it has to be |
| PoolGeometry.SlotCanBeTooSmall | src/kernel/ke/mm/pool.c:164-166 | the largest object size gives a slot of 8 bytes |
| PoolGeometry.SlotsInPage | src/kernel/ke/mm/pool.c:51-60 | slots are 8-aligned, clear of the page header, inside the page and apart |
| PoolGeometry.PageIsFull | src/kernel/ke/mm/pool.c:174-177 | one slot more would not fit in the page |
| PoolModel.SlotsApart | src/kernel/ke/mm/pool.c:51-60 | any two different slots of a pool do not overlap |
| PoolModel.PopOk | src/kernel/ke/mm/pool.c:86-112 | a pop hands out a free slot that was not in use and keeps the count equations |
| PoolModel.PublishOk | src/kernel/ke/mm/pool.c:65-84 | publishing a page adds its slots as free slots, each once, and keeps the count equations |
| PoolModel.ReleaseOk | src/kernel/ke/mm/pool.c:268-283 | freeing an object in use makes its slot free, once |
| PoolModel.CapacityMet | src/kernel/ke/mm/pool.c:194-196 | the initial pages hold the requested capacity if and only if the 32-bit sum does not wrap, and without the last of them they would not |
| PoolModel.CapacityCanWrap | src/kernel/ke/mm/pool.c:194-196 | a capacity near 2^32 wraps and gives a smaller pool |
| PoolModel.FilledSound | src/kernel/ke/mm/pool.c:198-226 | the pool after publishing any distinct new pages has exactly those pages and every slot free once |
| ObjectPool.ObjectPool.PrepareOnePage | src/kernel/ke/mm/pool.c:25-63 | links exactly the slots of the page, last slot first, and writes nowhere else |
| ObjectPool.ObjectPool.Publish | src/kernel/ke/mm/pool.c:65-84 | the lists in memory become the model's; objects in use are untouched |
| ObjectPool.ObjectPool.TryPopNode | src/kernel/ke/mm/pool.c:86-112 | equals PoolModel.Pop on the intrusive list |
| ObjectPool.ObjectPool.PublishAndPop | src/kernel/ke/mm/pool.c:114-155 | publishes and pops, or gives the orphan page back when the pool is dead |
| ObjectPool.ObjectPool.Alloc | src/kernel/ke/mm/pool.c:232-266 | a zeroed slot apart from every object in use, whose contents are untouched; NULL exactly when dead or out of pages |
| ObjectPool.ObjectPool.Store | src/kernel/ke/mm/pool.c:264-265 | a client's writes inside its object disturb neither the lists nor other objects |
| ObjectPool.ObjectPool.Free | src/kernel/ke/mm/pool.c:268-283 | puts the slot at the head of the free list and touches no object in use |
| ObjectPool.ObjectPool.Destroy | src/kernel/ke/mm/pool.c:285-342 | succeeds exactly on a live pool without objects, and then every page is back in the heap |
| ObjectPool.ObjectPool.Init | src/kernel/ke/mm/pool.c:157-230 | all pages published, or the heap as before; each status exactly when its condition holds; a pool that was still alive is reset and its old pages never come back to the heap |
| PoolRaces.ApplyKeeps | src/kernel/ke/mm/pool.c:86-155 | every step of any interleaving keeps the pool and page-ownership invariant |
| PoolRaces.Reachable | src/kernel/ke/mm/pool.c:157-342 | the invariant holds after every interleaving that starts from the pool KePoolInit leaves |
| PoolRaces.RunPartition | src/kernel/ke/mm/pool.c:232-342 | in every reachable state each heap page is in exactly one of page list, one call's hands, detached list, free |
| PoolRaces.NothingAfterDestroy | src/kernel/ke/mm/pool.c:285-327 | after a destroy succeeded no allocation returns an object, and no object is left in use |
| PoolRaces.UsedWhenHeld | src/kernel/ke/mm/pool.c:277-279 | KePoolFree's assertion holds for every object a client has |
| PoolRaces.ReturnKeeps | src/kernel/ke/mm/pool.c:264-265 | when a popped slot is cleared the pool is alive and its slot size is still the one it was made with |
| PoolRaces.AllPagesBack | src/kernel/ke/mm/pool.c:329-338 | once destroy and all calls are done, the heap has all its pages |
| PoolAlone.AloneIsAlloc | src/kernel/ke/mm/pool.c:232-266 | in any reachable state a KePoolAlloc that nothing interrupts returns what the Alloc of ObjectPool returns and leaves the pool as that does |
| PoolAlone.DestroyExactly | src/kernel/ke/mm/pool.c:285-327 | a destroy takes effect exactly on a live pool without objects, and then takes all its pages |
| PoolAlone.DetachedFreed | src/kernel/ke/mm/pool.c:329-338 | the loop after it gives every one of them back |
| PoolAlone.CountersTell | src/kernel/ke/mm/pool.c:105-107 | in any interleaving the peak is the most objects ever in use and the failure count the number of calls the heap had no page for |
| Handles.DecodeEncode | src/kernel/ex/handle.c:31-62 | decoding an encoded valid pair gives it back |
| Handles.EncodeDecode | src/kernel/ex/handle.c:31-62 | every 32-bit word is refused or is the encoding of the one valid pair it decodes to |
| Handles.Cycle | src/kernel/ex/handle.c:21-29 | generations run through 1 to 2^24-1 in turn and never take 0 |
| Handles.StaleHandle | src/kernel/ex/handle.c:176-185 | a closed handle names nothing under any run with fewer than 2^24-2 further closes of its slot |
| Handles.StaleBoundExact | src/kernel/ex/handle.c:176-185 | with exactly 2^24-2 further closes it names its slot again as soon as the slot is in use |
| Handles.HandleTable.Insert | src/kernel/ex/handle.c:196-230 | lowest free slot with the object and the rights given, one more reference, a handle that names it; each failure exactly when its condition holds |
| Handles.HandleTable.Resolve | src/kernel/ex/handle.c:232-266 | succeeds exactly when the handle names a slot of the right kind with the rights, and retains that object |
| Handles.HandleTable.CloseHandle | src/kernel/ex/handle.c:309-360 | clears exactly the named slot and releases its object; afterwards the handle names nothing; a handle without the close right, or a published object's handle to itself, stays open |
| Handles.HandleTable.CloseAll | src/kernel/ex/handle.c:362-412 | all used slots cleared and as many references released, or nothing at all when one of them may not be closed |
| ExecutiveRefs.RetainKeeps | src/kernel/ex/object.c:42-53 | a retained reference is the only change to the balance of counts and holders |
| ExecutiveRefs.LastReference | src/kernel/ex/process.c:140-156 | when the last reference to a process goes, its handle table is empty and its stdout service has no other holder |
| ExecutiveRefs.ReleaseKeeps | src/kernel/ex/object.c:55-70 | a release destroys exactly the objects nobody holds any more, through thread to process to stdout service |
| ExecutiveSteps.CreateStepKeeps | src/kernel/ex/process.c:158-286 | every step and every failure of process creation keeps the invariant |
| ExecutiveSteps.ThreadStepKeeps | src/kernel/ex/thread.c:87-183 | every step and every failure of thread creation keeps it, the owner reference moving to the thread and back |
| ExecutiveSteps.PublishKeeps | src/kernel/ex/runtime_table.c:438-481 | publishing keeps it |
| ExecutiveSteps.FinalizeStepKeeps | src/kernel/ex/user_runtime_bridge.c:157-193 | every step of the finalizer keeps it |
| ExecutiveSteps.CancelStepKeeps | src/kernel/ex/thread.c:222-258 | every step of tearing down an unstarted thread keeps it |
| ExecutiveSteps.CloseStepKeeps | src/kernel/ex/handle.c:389-404 | closing slot after slot with the owner retained keeps it |
| ExecutiveSteps.UnlistedMayClose | src/kernel/ex/handle.c:112-135 | every handle of an unpublished process passes the close checks |
| ExecutiveRuns.ConsumeKeeps | src/kernel/ex/runtime_table.c:817-848 | consuming passes the completion reference to the waiter, which was not consumed before |
| ExecutiveRuns.WaitKeeps | src/kernel/ex/process_control.c:296-372 | every step of wait and kill keeps the invariant (who may begin one is ExecutiveParents.WaitAdmission) |
| ExecutiveRuns.RunKeeps | src/kernel/ex/runtime_table.c:703-848 | every run keeps the invariant |
| ExecutiveRuns.CountsAreHolders | src/kernel/ex/object.c:42-105 | in every reachable state each count is the number of holders, and an object has been destroyed once if that is zero and never otherwise |
| ExecutiveRuns.AliveWhileUsed | src/kernel/ex/user_runtime_bridge.c:185-192 | a process that a call works on or a waiter holds has not been freed |
| ExecutiveRuns.TableEntriesLive | src/kernel/ex/runtime_table.c:438-481 | every active table entry points at a live object |
| ExecutiveRuns.OneConsumer | src/kernel/ex/runtime_table.c:721-745 | the completion reference is taken at most once and at most one waiter of a process has consumed it, whether or not it has left |
| ExecutiveRuns.FreedAfterConsumed | src/kernel/ex/runtime_table.c:817-848 | a started process is freed only after it was signaled and consumed |
| ExecutiveRuns.NothingLeaks | src/kernel/ex/thread.c:46-65 | with no call at work, no completion reference and no waiter left, process, stdout service and threads are destroyed |
| ExecutiveHistory.ReasonKept | src/kernel/ex/runtime_table.c:703-719 | the first termination reason and its status are never overwritten |
| ExecutiveHistory.StepEvolves | src/kernel/ex/handle.c:176-230 | every step of the executive leaves each handle slot alone, takes it once or clears it once, and keeps the first termination reason |
| ExecutiveHistory.RunGeneration | src/kernel/ex/handle.c:21-29 | over any run a used slot's generation moves on once for every step of the run that closes the slot |
| ExecutiveHistory.HandleAfterRun | src/kernel/ex/handle.c:176-185 | from any reachable state on, after any run a handle names its slot if and only if the slot is in use and the run has closed it a multiple of 2^24-1 times, and no other slot |
| ExecutiveHistory.HandlesStayClosed | src/kernel/ex/handle.c:176-185 | from any reachable state on, a handle whose slot the run has closed names nothing until the slot has been closed 2^24-1 times in all, and then it names its slot again exactly when the slot is in use |
| ExecutiveHistory.CloseCounts | src/kernel/ex/handle.c:309-360 | ExHandleClose is one of the steps counted exactly when the handle has the close right and is not a listed process's or thread's handle to itself; otherwise it changes nothing |
| ExecutiveHistory.TablesOk | src/kernel/ex/handle.c:21-62 | in every reachable state every process's handle table is a proper table of Handles |
| ExecutiveParents.OnlyParentsWait | src/kernel/ex/runtime_table.c:522-548 | in every reachable state each process has the parent it was created with, and every wait and every kill of it was called from that parent |
| ExecutiveParents.WaitAdmission | src/kernel/ex/process_control.c:296-372 | in every reachable state a wait or kill is let in exactly when the process is listed and the caller is its parent; it then holds one reference more, and nothing else changes; otherwise nothing changes |
| ExecutiveParents.KilledExactly | src/kernel/ex/runtime_table.c:625-643 | in every reachable state a process is asked to end if and only if a kill of it has been taken up |
| ExecutiveParents.KillGoesOn | src/kernel/ex/runtime_table.c:625-643 | the first kill of a process goes on to wait for it, every later one is refused |
| ExecutiveParents.StepsStayApart | src/kernel/ex/runtime_table.c:703-848 | a step on one process changes nothing in the life of any other: phase, handles, reason, completion |
| ExecutiveParents.FailedTeardownUnsignaled | src/kernel/ex/user_runtime_bridge.c:157-193 | a process whose payload teardown has failed is never signaled as completed nor consumed, whatever happens afterwards |
| ExecutiveParents.TablesSuffice | src/kernel/ex/runtime_table.c:438-481 | in every reachable state each table has at most eight entries |
| ExecutiveParents.FirstReason | src/kernel/ex/runtime_table.c:703-745 | in every reachable state the termination reason and status are the first that were given, or an exit with 0 when the thread was finalized without any |
| ExecutiveProgress.GoMoves | src/kernel/ex/user_runtime_bridge.c:157-193 | every step of a finalizer, a cancelled thread start or a destroyed process is possible and is the next one in the code's order |
| ExecutiveProgress.FinalizerFinishes | src/kernel/ex/user_runtime_bridge.c:157-193 | from thread exit, a clean finalizer reaches its end in a fixed number of steps and leaves a process that can be consumed |
| ExecutiveProgress.WindDown | src/kernel/ex/handle.c:362-412 | whichever way a process goes out, a fixed number of steps can all be taken, and then nothing is at work on it |
| ExecutiveProgress.WaysOut | src/kernel/ex/thread.c:222-258 | a failed creation, giving a process back, giving an unstarted thread back and the end of a thread all lead there |
| ExecutiveProgress.WaiterConsumes | src/kernel/ex/process_control.c:296-331 | a waiter of such a process, or the first kill of it, goes on to consume it and leaves with success |
| ExecutiveLaunch.CreationFinishes | src/kernel/ex/process.c:158-286 | when nothing fails, process creation goes through; the process is staged and has the handles to itself, to its stdout service and to wait for itself, in that order and with just their rights |
| ExecutiveLaunch.ThreadFinishes | src/kernel/ex/thread.c:87-183 | and so does thread creation, with room in the tables: both are listed and the thread's own handle is in the fourth slot |
| ExecutiveLaunch.LaunchFinishes | src/kernel/ex/process_control.c:103-150 | so that a process made in any state with room in both tables comes to run |
| Irql.ReleasesNest | src/kernel/ke/irql.c:108-137 | in every run that passes the assertions, closes cancel against the nearest open: last in, first out |
| Irql.RunOk | src/kernel/ke/irql.c:139-170 | only the outermost frame can be an interrupt and no guard is held twice |
| Irql.Processor.CheckState | src/kernel/ke/irql.c:28-42 | the state assertions, interrupt depth included, never fail |
| Irql.Processor.AcquireGuard | src/kernel/ke/irql.c:76-106 | passes its assertions, the closing one included, exactly for a free guard with room; interrupts are off while anything is held |
| Irql.Processor.ReleaseGuard | src/kernel/ke/irql.c:108-137 | passes its assertions, the closing ones included, exactly for the innermost guard; the outermost release restores the original interrupt flag and PASSIVE |
| Irql.Processor.EnterSection | src/kernel/ke/critical_section.c:15-26 | the same for critical sections, whose own depth counts the sections held |
| Irql.Processor.LeaveSection | src/kernel/ke/critical_section.c:28-43 | passes exactly for the innermost frame |
| Irql.Processor.EnterInterrupt | src/kernel/ke/irql.c:139-153 | an interrupt arrives only at depth 0 and never fails an assertion |
| Irql.Processor.LeaveInterrupt | src/kernel/ke/irql.c:155-170 | passes exactly when the handler has left everything it entered |
| InputLine.ScanIsEdit | src/kernel/ke/input/input.c:81-127 | from an empty line, any scan codes that one interrupt finds leave the simple editor's line, and nothing after the newline counts |
| InputLine.LineIsEdit | src/kernel/ke/input/input.c:143-182 | in every run with hand-offs and reads the device is what the session makes of it: owner, shift, the editor's line over what was typed since the last hand-off or read, delivered up to the first newline, and the number of lines read |
| InputLine.KeyGives | src/kernel/ke/input/input.c:46-64 | every printable character has a key, and a letter key gives the small letter and with shift the capital |
| InputLine.ControlKeys | src/kernel/ke/input/input.c:72-76 | Enter gives the newline and Backspace the backspace, with shift or without |
| InputLine.KeyIsOnly | src/kernel/ke/input/input.c:66-79 | no other key gives it, but that space needs no shift |
| InputLine.PlainLine | src/kernel/ke/input/input.c:119-126 | printable characters alone are kept in full up to the 128th, and the others dropped |
| InputLine.OwnerIsLast | src/kernel/ke/input/input.c:235-256 | in every run the owner is the thread of the last hand-off |
| InputLine.LineSinceHandoff | src/kernel/ke/input/input.c:235-256 | after a hand-off to a thread, and until it reads, the line is the editor's over exactly what was typed since, from shift up |
| InputLine.LineSinceRead | src/kernel/ke/input/input.c:331-358 | after a thread has read a line, its next one is what was typed since that read |
| InputLine.DeliveredLine | src/kernel/ke/input/input.c:97-117 | a ready line belongs to the thread of the last hand-off, is signaled, and is the editor's line up to the newline over what was typed since that hand-off or a later read by that thread |
| InputLine.RunOk | src/kernel/ke/input/input.c:235-256 | a line is ready exactly when the event is signaled, and then the current line is empty |
| InputLine.FirstLineMeans | src/kernel/ke/input/input.c:97-117 | the delivered part is the text before the first newline |
| InputLine.InputDevice.HandleInputChar | src/kernel/ke/input/input.c:81-127 | the buffers change as HandleChar says, within 128 characters |
| InputLine.InputDevice.KeyboardInterrupt | src/kernel/ke/input/input.c:143-182 | the handler's loop equals ScanAll on the pending bytes |
| InputLine.InputDevice.SetForegroundOwner | src/kernel/ke/input/input.c:235-256 | after a hand-off the thread named is the owner, and line, event and shift are gone |
| InputLine.InputDevice.CopyLine | src/kernel/ke/input/input.c:294-329 | each status exactly when its condition holds; success copies the delivered line and changes nothing |
| InputLine.InputDevice.ConsumeLine | src/kernel/ke/input/input.c:331-358 | it succeeds exactly for the owner and a ready line |
| Elf.HeadersInside | src/lib/elf/elf.c:24-31 | the wrap-around test puts all program headers inside the image |
| Elf.SourceTestExact | src/lib/elf/elf.c:159-162 | a segment that passes the source test lies inside the image if and only if p_filesz is at most the image size; below that bound the test is exact |
| Elf.ReadsBeyond | src/lib/elf/elf.c:154-177 | the code takes a segment whose bytes are not all there if and only if p_filesz is larger than the image, p_offset at most 2^64 less the difference, and the target tests pass |
| ElfSample.SourceTestCanFail | src/lib/elf/elf.c:143-187 | a valid 120-byte image whose one segment passes every test with its bytes outside the image |
| Elf.LastSegmentWins | src/lib/elf/elf.c:151-184 | each byte is the file byte or zero of the last loadable segment covering it |
| Elf.UncoveredUnchanged | src/lib/elf/elf.c:151-184 | bytes no loadable segment covers are unchanged |
| Elf.LoadSegment | src/lib/elf/elf.c:154-183 | a segment is accepted exactly when it fits, and then placed; otherwise nothing is written |
| Elf.LoadToBuffer | src/lib/elf/elf.c:143-187 | succeeds exactly when the file is valid, has a program header and every loadable one fits; each byte of the buffer is then that of the last header in the file that covers its address (p_filesz bytes from p_offset on, then zeros), and every byte no header covers is unchanged; all accesses are in bounds |
| ElfFormat.ProgramHeaderRead | src/include/lib/elf/elf.h:89-99 | from the 56 bytes of a program header in field order, least significant byte first, the loader reads that header's type, offset, address and sizes, for all field values |
| ElfFormat.FileHeaderRead | src/include/lib/elf/elf.h:69-86 | the same for the fields of the file header |
| ElfFormat.ValidExactly | src/lib/elf/elf.c:4-33 | a file with such a header is valid if and only if it is a little-endian ELF64 program for x86-64 whose program headers have the right size and lie inside the file |
| Digits.ValueOfMinimal | src/libc/stdlib/hostdlib.c:173-199 | reading the minimal digits gives the number back |
| Digits.MinimalUnique | src/libc/stdlib/hostdlib.c:173-199 | no other digit string without a leading zero has that value |
| Digits.NoLeadingZero | src/libc/stdlib/hostdlib.c:173-187 | the minimal digits of a positive number do not start with zero |
| Digits.DigitTable | src/libc/stdlib/hostdlib.c:4-4 | the digits are the ten figures and the capital letters in order |
| Numbers.DecimalLength | src/libc/stdlib/hostdlib.c:109-151 | the comparison chain counts the decimal digits of every 64-bit word |
| Numbers.TwoBaseLength | src/libc/stdlib/hostdlib.c:59-68 | the bit formula counts the digits in bases 2 to 32 |
| Numbers.NumeralShape | src/libc/stdlib/hostdlib.c:40-83 | the text is padding up to the width asked, or the full width, and then the minimal digits |
| Numbers.NumeralReadsBack | src/libc/stdlib/hostdlib.c:40-83 | what follows the padding, and with zero padding the whole text, reads back as the value |
| Numbers.WriteIntDecimal | src/libc/stdlib/hostdlib.c:173-187 | fills exactly the given place with the minimal digits |
| Numbers.WriteIntTwoBase | src/libc/stdlib/hostdlib.c:189-199 | the same for bases 2^k |
| Numbers.UInt64ToStringEx | src/libc/stdlib/hostdlib.c:40-83 | padding, digits and NUL and nothing else, for every word and supported base; other bases write nothing |
| Numbers.FullWidth | src/libc/stdlib/hostdlib.c:70-73 | the width that a negative padding stands for is that of the largest word |
| Numbers.SignedNumeralMeans | src/libc/stdlib/hostdlib.c:85-107 | the text is '-' exactly for a negative number, then padding up to the width asked, then digits without leading zeros that read back as the magnitude |
| Numbers.SignedReadsBack | src/libc/stdlib/hostdlib.c:85-107 | without padding, or padded with zeros, the whole text is one number token, and it stands for the number printed |
| Numbers.SignedShortest | src/libc/stdlib/hostdlib.c:85-107 | and no other token without leading zeros stands for it |
| Numbers.Int64ToStringEx | src/libc/stdlib/hostdlib.c:85-107 | sign, padding, digits and NUL for every int64, the minimum included; without padding or padded with zeros the text reads back as the number |
| Calculator.DecimalIsNumber | src/user/calc/main.c:98-134 | printed numbers are accepted tokens and stand for the number printed |
| Calculator.PrefixValue | src/user/calc/main.c:190-202 | a prefix never has a larger value, so the digit-by-digit overflow test loses nothing |
| Calculator.ParseDigits | src/user/calc/main.c:190-202 | accepts exactly digit strings with value within the limit |
| Calculator.ParseInt64 | src/user/calc/main.c:166-216 | accepts a token if and only if it is an optional minus and digits with value in the int64 range, and returns that value |
| Calculator.AppendInt64 | src/user/calc/main.c:98-134 | appends exactly the decimal text, or aborts exactly when it does not fit |
| Calculator.PrintThenParse | src/user/calc/main.c:98-216 | parsing undoes printing for every int64 |

## Left out

- Scheduler, dispatcher waits, join and detach, the kernel virtual address allocator, the physical page bitmap, kmalloc and fixmap: they appear only through what their callers rely on.
- Drivers, inline assembly, TLB flushes, IDT and GDT setup; CR3 is a field that says which root is active.
- EFI boot services, ACPI reading, the rest of the boot capsule code and the import of the boot mappings.
- Sysinfo capture and sorting, console output, logging, panic screens, demo threads, shell and other user programs: easy members only.
- KiFindScratchHole, KeFindImportedRegion, KeDiagnoseVirtualAddress and the page-table self tests.
- The bytes that staging writes and user copies move; the checks made before them are modelled.
- The optional not-present flag of the boot loader's MapPage, which no caller sets.
- BootPager.Pager.MapRegion: asks for a region inside the 48-bit virtual and the physical address space, as every caller passes.
- UserStaging.CreateProcess: page 0, which the code uses as "no root", is not among the free pages; src/kernel/ke/pmm/pmm_boot_init.c:369-373 keeps it back.
- UserStaging.CreateThenTeardown: the same.
- UserCopy.CopyOutOfNewProcess: the same.
- ObjectPool.ObjectPool.Init: the pool's counters are unbounded; a heap of more than 2^32 slots would wrap them in the code.
- PoolRaces.RunPartition: a pool is not initialised again after it was destroyed.
- Executive objects are modelled on values: the field updates of process, thread and table entries are steps, a search loop over a table is set membership, and process ids count from 0 here and from 1 in the code.
- Foreground ownership of processes, kill checks at system calls and the capability seed block: a running process may be marked with any reason at any time, which covers them.
- Executive.Start: the thread start and the write of READY are one step.
- Switching between threads' IRQL states inside an interrupt.
- InputLine calls are one step each: the owner check that comes before the critical section is part of it.
- Elf.LoadSegment: excludes exactly the segments for which the code reads beyond the image; Elf.ReadsBeyond says which they are.
- Elf.LoadToBuffer: the same for the segments its loop comes to.
- Elf64Load with a mapping callback and Elf64GetLoadInfo.
- The calculator's expression evaluation.
