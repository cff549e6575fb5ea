# RogueOS kernel: models and proofs

RogueOS is a single-core x86-64 kernel whose subsystems are small state machines over fixed
arrays. This project models the ones that carry its guarantees and proves what they promise over
every input and every run: four-level paging with large-page splits and per-process roots, the
buddy allocator and the memory map it is seeded from, the EEVDF runqueue, the process table with
its system calls, mailboxes, capabilities and flow labels, the ELF loader, the flat file system,
the kernel heap and anonymous memory.

Each subsystem comes in the same three parts. Functions on values say what an operation does.
Lemmas say what that means: refinement of a simple view, invariants over whole runs, exact
conditions. Where the kernel updates state in place, a class with the kernel's own arrays, loops
and threaded lists is proved to compute exactly those functions.

| files | subsystem |
|---|---|
| `PageTables`, `PageEdits`, `Mapper`, `PageViews`, `KernelViews`, `PageMapper`, `PteBits` | paging: walks, edits, map, unmap, split, permissions, identity map, entry bits |
| `AddressSpaces`, `FrameOwners`, `StackWalks`, `AnonMaps` | process roots, isolation, frame ownership, stacks, mmap and munmap |
| `BuddyTree`, `FreeLists`, `Buddy`, `MemMap` | physical pages and the UEFI memory map |
| `Eevdf`, `EevdfRuns`, `EevdfShares`, `QueueSet`, `RunQueue` | the scheduler |
| `UserStacks`, `Processes`, `ProcessRuns`, `SavedFrames`, `FirstRuns`, `CallEffects`, `Capabilities`, `Mailboxes`, `FlowLabels`, `MailRings`, `ProcessKernel` | process life cycle and system calls |
| `ElfImage`, `ElfCorrect`, `ElfHeaders`, `LoadBounds`, `ElfLoader` | loading programs |
| `SimpleFs`, `FsRuns`, `FsVolume` | files |
| `HeapModel`, `HeapRuns`, `HeapCapacity`, `KernelHeap` | the kernel heap |
| `Options`, `Numbers` | optional values, maximum, minimum and saturating subtraction |

## Where the code differs from its stated intent

The models follow the code. Each difference below is a proved statement, with the exact condition
under which the intent is met.

- A free that merges marks the merged range free a second time and halts as a double free. A
  free as written halts exactly when the block is not allocated or its buddy is free
  (`BuddyTree.FreeAsWrittenHaltsIff`), so the first free after a split always halts
  (`BuddyTree.FreeAfterSplitHalts`). The coalescing results are about marking once on entry.
- `unmap_page_in_space` does not look at the PS bit. Below a 2 MB page it clears a word of the
  page's first frame, and below a 1 GB page a word of the frame that a word of the page happens to
  point at, whatever these frames hold (`Mapper.UnmapUnderLeaf`). Unless the frame written is a page
  table, it unmaps a page exactly when the page is not on a large page (`Mapper.UnmapClearsIff`).
- The 2 MB frame mask covers bits 21 to 59 although its comment says 21 to 51: a split keeps
  addresses exactly when bits 52 to 59 are clear (`PteBits.Split2MKeepsAddressIff`). Splits drop
  no-execute and add user access (`PteBits.SplitPermissions`); a map that fails may already have
  split a 1 GB page (`PageViews.MapPageViews`).
- Paging initialisation maps the frame region with the largest pages that fit and then its first
  frame once more with a 4 KB page. The split makes the rest of the first large page user memory:
  after boot a page of the region is user memory exactly when the region starts at 10 MB or above
  and the page lies behind the first frame in the region's first 2 MB or 1 GB page. All other pages
  of image and region are kernel memory (`PageMapping.PageMapper.InitPaging`, `BecomesUser`).
- User stacks are built from pages of the page-table pool, not of the frame allocator. The stack
  window of a process lies in the PML4 entry it has to itself exactly when its pid is at most
  14913081 (`FrameOwners.StackIsPrivateIff`).
- The fixed frame region used without BootInfo (2 MB to 10 MB) overlaps every page-table pool that
  lies in the identity-mapped kernel image (`FrameOwners.FixedRegionHitsPool`). With the BootInfo
  reservations the region lies above the pool (`FrameOwners.PoolBelowRegion`).
- The ELF loader does not compare segments with the range a process has to itself. The pages
  loaded stay in it exactly when the segment lies in [0xA00000, 0xC00000)
  (`LoadBounds.StaysPrivateIff`). Outside it, a page already mapped is overwritten
  (`LoadBounds.LoadOverwrites`), and a page newly mapped where the kernel has a page table also
  appears in the kernel's address space (`LoadBounds.LoadOutsideHitsKernel`).
- The anonymous range of a process is its own exactly when the kernel had nothing at PDPT entry 1
  when the process was created (`AnonMaps.AnonIsPrivateIff`).
- An arrival may take the runqueue slot of the running task; requeueing then counts it twice. The
  count stays exact under every other event, and under a preemption exactly when the slot is still
  free (`EevdfRuns.CountExactIff`, `EevdfRuns.ArrivalTakesRunningSlot`). The bounds on vruntimes and
  on waiting hold all the same.
- Before a process is entered, its saved stack pointer is checked, and a bad one halts the kernel. A
  blocking waitpid saves whatever stack pointer the caller has. From boot, a spawn, a waitpid for the
  child and the child's exit halt the kernel exactly when the parent's stack pointer at the call is
  above the stack area, not a multiple of 16, or has no writable user memory below it
  (`FirstRuns.WaitHaltsIff`, `FirstRuns.OddWordHalts`). A run halts exactly when the loader does or
  a dispatch picks a process with such a stack pointer (`ProcessRuns.RunHaltsIff`). It never does
  when every blocking wait is made with a good one and every program loads
  (`FirstRuns.BootNeverHalts`); a process that blocked with a bad one never runs again
  (`SavedFrames.DoomedForever`).
- waitpid checks the address for the exit status after it has reaped the process. The caller is told
  the status exactly when the address is 0 or valid (`ProcessRuns.ReapTellsIff`); otherwise no later
  call tells it (`ProcessRuns.GoneIsNeverTold`).
- waitpid(0) means "any" when reaping but not when waking: an exit that a blocked process waits for
  wakes it exactly when it does not wait on 0 (`ProcessRuns.ExitWakesIff`). From boot, a spawn, a
  waitpid(0) and the child's exit leave the first process blocked for good beside a zombie it could
  reap (`FirstRuns.StuckRun`, `FirstRuns.StuckAfterBoot`). Every other wait is never missed.
- The first process is entered without being dequeued, so it runs while still queued
  (`ProcessRuns.BootOk`).
- `index_of_pid` also finds dead processes, so a message can be sent to one; it is delivered to
  the next user of the slot (`Mailboxes.DeadMailReachesNext`). Mail is right exactly when no
  send names a dead process (`Mailboxes.SendKeepsMailIff`). The next user of the slot can hold a
  label to which the sender may not flow (`FlowLabels.DeadMailCrossesLabels`).
- SYS_MUNMAP checks where its range starts but not where it ends. It stays in the process's own
  range exactly when the last page is below 2 GB (`AnonMaps.StaysAnonIff`); past it, it unmaps
  pages the kernel shares (`AnonMaps.UnmapShared`). The range is PDPT entry 1, although the
  comment in the source says entry 0 (`AnonMaps.AnonPage`).
- A file's recorded size is rounded up to whole blocks (`FsRuns.SizeIsRounded`), and growing a
  file does not check that the next block is free: files stay apart exactly when no other file
  starts in the blocks it will hold (`FsRuns.WriteKeepsApartIff`).
- Formatting writes the volume header only. The formatted volume is an empty file system exactly
  when the record table block happened to hold no live record (`FsRuns.FormattedInvIff`).
- A heap request above 1024 bytes gets one page whatever its size: its region lies in its block
  exactly when the larger of header and alignment, plus the size, is at most a page
  (`HeapRuns.RegionFitsIff`).
- In a new page the loader zeroes what follows the segment's bytes, not what precedes them. A new page
  holds nothing but the segment's bytes and zeros exactly when its frame held zeros there
  (`ElfCorrect.NewPageCleanIff`), which is so for every frame exactly when the segment starts at or
  before the page (`ElfCorrect.AlwaysCleanIff`).
- The loader's check of the first 16 text bytes reads past the frame when the segment starts in
  the last 15 bytes of a page; it passes exactly when the next physical frame happens to hold
  those bytes (`ElfCorrect.ProbePassesIff`).

## Model

| member | source | states |
|---|---|---|
| PageTables.PageRoundTrip | kernel/memory/paging/levels.rs:11-28 | the four table indices of a page number determine it |
| PageTables.VpnRoundTrip | kernel/memory/paging/levels.rs:11-28 | every index quadruple is the index quadruple of one page number |
| PageEdits.GraftWalk | kernel/memory/paging/mapper.rs:27-36 | hanging a new table under an entry that is not a link, when the table covers what the entry mapped, leaves every walk's translation as it was |
| PageEdits.PatchUserSame | kernel/memory/paging/mapper.rs:22-26 | setting the user bit of an entry is invisible to every walk |
| Mapper.EnsurePdptGrows | kernel/memory/paging/mapper.rs:18-37 | finding or making a PDPT changes no translation in any address space and leaves the walk through it |
| Mapper.EnsurePdGrows | kernel/memory/paging/mapper.rs:40-76 | the same for a PD, also when a 1 GB page had to be split |
| Mapper.EnsurePtGrows | kernel/memory/paging/mapper.rs:79-116 | the same for a PT, also when a 2 MB page had to be split |
| Mapper.SplitCovers | kernel/memory/paging/mapper.rs:60-76 | the tables a split writes map every address under the large page to the frame it had |
| Mapper.MapPageRefines | kernel/memory/paging/mapper.rs:150-188 | mapping one 4 KB page changes, in every root, exactly the pages mapped through the written slot; a call that returns false changes no translation |
| Mapper.MapPageUpdatesOnePage | kernel/memory/paging/mapper.rs:150-188 | in a root whose tables form a tree, mapping refines a map update at one page, splits included |
| Mapper.MapPageFailsIff | kernel/memory/paging/mapper.rs:150-188 | mapping fails if and only if fewer tables are left in the pool than the walk lacks, a large page in the way counting as lacking |
| Mapper.MapPageUserWalk | kernel/memory/paging/mapper.rs:146-188 | after a user mapping the user bit is set at all four levels and the leaf holds the frame and flags given |
| Mapper.MapPage2MRefines | kernel/memory/paging/mapper.rs:191-213 | mapping 2 MB changes exactly the pages under the written PD entry, or nothing when it returns false |
| Mapper.MapPage2MInTree | kernel/memory/paging/mapper.rs:191-213 | in a tree, a 2 MB mapping gives 512 consecutive frames and leaves all other pages |
| Mapper.MapPage1GRefines | kernel/memory/paging/mapper.rs:216-234 | mapping 1 GB changes exactly the pages under the written PDPT entry, or nothing |
| Mapper.MapPage1GInTree | kernel/memory/paging/mapper.rs:216-234 | in a tree, a 1 GB mapping gives 262144 consecutive frames and leaves all other pages |
| Mapper.UnmapPageRefines | kernel/memory/paging/mapper.rs:408-422 | unmapping a 4 KB page removes exactly the pages mapped through its slot, in every root |
| Mapper.UnmapPageInTree | kernel/memory/paging/mapper.rs:408-422 | in a tree, unmapping removes that page and no other |
| Mapper.UnmapClearsIff | kernel/memory/paging/mapper.rs:408-422 | in memory of any contents, after unmapping the page is unmapped if and only if it was not on a large page, provided the frame written below a large page is no page table |
| Mapper.UnmapUnderLeaf | kernel/memory/paging/mapper.rs:408-422 | below a 2 MB page one word of its first frame is cleared, below a 1 GB page one word of the frame that the word read there points at, tables or not; nothing if that word is not present |
| Mapper.UnmapAfterMap | kernel/memory/paging/mapper.rs:150-188 | unmapping after a successful map removes that page and restores every other translation |
| Mapper.ConfinedPool | kernel/memory/paging/mapper.rs:129-144 | whatever is mapped or unmapped, tables come only from the unused part of the pool |
| Mapper.MapShared | kernel/memory/paging/mapper.rs:150-188 | two roots that reach a page through the same PD or PT both get what one of them maps there |
| PageViews.MapPageViews | kernel/memory/paging/mapper.rs:150-188 | mapping a page as every address space sees it: the written slot gets the frame and the writable, user and no-execute bits given, bit by bit; other pages of a large page in the way keep frame and writable bit, gain user access and lose no-execute; all else looks as before, also on failure; links stay open |
| PageViews.MapPage2MViews | kernel/memory/paging/mapper.rs:191-213 | the same for 2 MB pages |
| PageViews.MapPage1GViews | kernel/memory/paging/mapper.rs:216-234 | the same for 1 GB pages, which split nothing |
| PageViews.UnmapPageViews | kernel/memory/paging/mapper.rs:408-422 | unmapping removes the views of its slot and changes no other |
| PageViews.MappedEntry | kernel/memory/paging/mapper.rs:184-233 | the entry found after a map of any page size has the frame, the flags given one by one, and the page-size bit exactly for large pages |
| PageViews.OpenMeansLeaf | kernel/memory/paging/mapper.rs:30-36 | where all links are writable, user and executable, what may be done with a page is what its leaf says |
| KernelViews.Step4K | kernel/memory/paging/mapper.rs:150-188 | an identity step makes its page kernel memory, raises at most pages of the large page it breaks, and keeps links open |
| KernelViews.Step2M | kernel/memory/paging/mapper.rs:191-213 | the same for 512 pages |
| KernelViews.Step1G | kernel/memory/paging/mapper.rs:216-234 | the same for 262144 pages |
| KernelViews.MapPageAlong | kernel/memory/paging/mapper.rs:150-188 | in a tree, tables are added only along the walk of the page mapped |
| KernelViews.FallbackHasPt | kernel/memory/paging/mapper.rs:425-458 | the 4 KB fallback of a 2 MB identity step succeeds only where a page table was already |
| KernelViews.RemapRaises | kernel/memory/paging/mapper.rs:860-866 | mapping a page of a large page again makes exactly the other pages of that large page user memory |
| PageMapping.PageMapper.AllocTablePage | kernel/memory/paging/mapper.rs:129-144 | tables come from the pool in order until 512 are used |
| PageMapping.PageMapper.GetOrAllocChild | kernel/memory/paging/mapper.rs:18-37 | the in-place code computes EnsurePdpt |
| PageMapping.PageMapper.GetOrAllocPd | kernel/memory/paging/mapper.rs:40-76 | the loop that fills 512 PD entries computes EnsurePd |
| PageMapping.PageMapper.GetOrAllocPt | kernel/memory/paging/mapper.rs:79-116 | the loop that fills 512 PT entries computes EnsurePt |
| PageMapping.PageMapper.MapPageIntoSpace | kernel/memory/paging/mapper.rs:150-188 | the in-place code computes MapPage |
| PageMapping.PageMapper.MapPage2MIntoSpace | kernel/memory/paging/mapper.rs:191-213 | the in-place code computes MapPage2M |
| PageMapping.PageMapper.MapPage1GIntoSpace | kernel/memory/paging/mapper.rs:216-234 | the in-place code computes MapPage1G |
| PageMapping.PageMapper.UnmapPageInSpace | kernel/memory/paging/mapper.rs:408-422 | the in-place code computes UnmapPage in memory of any contents, data frames included |
| PageMapping.PageMapper.TranslateInSpace | kernel/memory/paging/mapper.rs:596-626 | the step-by-step walk returns Translate |
| PageMapping.PageMapper.IdentityMapRange | kernel/memory/paging/mapper.rs:425-458 | terminates; on success exactly the pages from the aligned start to the rounded end map to themselves as writable kernel memory, across any mix of 1 GB, 2 MB and 4 KB pages and the fallback; elsewhere frames stay and permissions too, except on large pages that were split; the first page has the size its alignment and the length allow; on failure the same holds of an initial part |
| PageMapping.PageMapper.MapImage | kernel/memory/paging/mapper.rs:783-816 | the 4 KB loop maps the 8 MB kernel image to itself as kernel memory and adds page tables only below 10 MB |
| PageMapping.PageMapper.InitPaging | kernel/memory/paging/mapper.rs:788-871 | from an empty pool: when it returns a root without a halt, every page of image and frame region maps to itself, the address-space invariant holds, all links are open, the image is writable kernel memory, and so is the region except the rest of its first large page, which is user memory |
| PageMapping.IdentityStep1G | kernel/memory/paging/mapper.rs:216-234 | one 1 GB identity step extends the identity-mapped range by 262144 pages |
| PageMapping.IdentityStep2M | kernel/memory/paging/mapper.rs:191-213 | one 2 MB identity step extends it by 512 pages |
| PageMapping.IdentityStep4K | kernel/memory/paging/mapper.rs:150-188 | one 4 KB identity step extends it by one page |
| PteBits.IndicesRebuildAddress | kernel/memory/paging/levels.rs:11-28 | the shift-and-mask indices and the page offset rebuild the low 48 address bits |
| PteBits.DecodeLink | kernel/memory/paging/mapper.rs:30-36 | the word written for a table link decodes to the model's link |
| PteBits.DecodeLeaf | kernel/memory/paging/mapper.rs:184-185 | the word written for a leaf decodes to the frame and flags given |
| PteBits.DecodeUser | kernel/memory/paging/mapper.rs:22-25 | setting the user bit in the word changes the decoded entry in that field only |
| PteBits.Split1GKeepsAddress | kernel/memory/paging/mapper.rs:60-75 | after a 1 GB split every virtual address reaches the physical address it had |
| PteBits.Split2MKeepsAddressIff | kernel/memory/paging/mapper.rs:97-116 | after a 2 MB split an address is kept if and only if bits 52 to 59 of the leaf are clear |
| PteBits.SplitPermissions | kernel/memory/paging/mapper.rs:62-102 | split leaves lose no-execute, gain user, keep writable |
| AddressSpaces.CreateProcessAgrees | kernel/memory/paging/mapper.rs:506-560 | a new root translates like the kernel's everywhere except PD entry 5 of the first GB and PML4 entry 255, which are empty |
| AddressSpaces.CreateProcessViews | kernel/memory/paging/mapper.rs:506-560 | the same with permissions: every page of a new root looks like the kernel's, bit by bit, but for the two empty entries, and its links are as open |
| AddressSpaces.CopyIsTree | kernel/memory/paging/mapper.rs:506-560 | the private copies form a tree again |
| AddressSpaces.CreateFailureHarmless | kernel/memory/paging/mapper.rs:506-560 | a creation that runs out of tables changes no existing walk |
| AddressSpaces.MapUserTranslation | kernel/memory/paging/mapper.rs:150-188 | mapping a user page of one process changes that page of that process and no translation of any other root |
| AddressSpaces.MapUserView | kernel/memory/paging/mapper.rs:150-188 | the same with permissions: that page gets the frame and flags given, and no page of any root looks different |
| AddressSpaces.UnmapUserTranslation | kernel/memory/paging/mapper.rs:408-422 | unmapping a user page changes that page of that process and nothing else |
| AddressSpaces.UnmapUserView | kernel/memory/paging/mapper.rs:408-422 | the same with permissions |
| AddressSpaces.StepKeepsInv | kernel/memory/paging/mapper.rs:506-560 | creation, user map and unmap, and kernel map keep trees, private user tables and 4 KB user pages, and, for a frame not in user use, no frame mapped at two user addresses; where frames come from is the FrameOwners rows |
| AddressSpaces.RunKeepsInv | kernel/memory/paging/mapper.rs:506-560 | the same in every state of every run of such steps |
| AddressSpaces.StepElsewhere | kernel/memory/paging/mapper.rs:506-560 | a step on another address space changes no translation of this one |
| AddressSpaces.RunElsewhere | kernel/memory/paging/mapper.rs:506-560 | isolation: whatever other processes create, map and unmap, an address space translates as before |
| PageMapping.PageMapper.CreateProcessRoot | kernel/memory/paging/mapper.rs:506-560 | the in-place code computes CreateProcess, failures included |
| FrameOwners.FreshPage | kernel/memory/physical/buddy.rs:297-330 | the page the buddy allocator hands out was not held, and its books balance afterwards |
| FrameOwners.MapFrameKeeps | kernel/process/loader/elf.rs:155-187 | drawing a frame from the buddy allocator for a user page: the frame was in no user page, and all invariants of address spaces, pool and allocator are kept, also when mapping fails |
| FrameOwners.MapStackKeeps | kernel/process/process.rs:174-187 | drawing a user page from the page-table pool keeps them all: the page is no table and will not become one |
| FrameOwners.DoKeeps | kernel/memory/paging/mapper.rs:506-560 | so does every other act: process creation, unmapping, kernel mappings, and frames the kernel takes and gives back |
| FrameOwners.RunKeepsOwners | kernel/memory/paging/mapper.rs:506-560 | the same in every state of every run that mixes processes, loading, stacks, mmap, munmap and kernel allocation |
| FrameOwners.UserFrameIsItsOwn | kernel/memory/paging/mapper.rs:129-144 | in such a state, the frame of a user page is no page table, is not left in the pool, is not free in the allocator and backs no other user page |
| FrameOwners.PoolBelowRegion | kernel/memory/physical/memmap.rs:42-60 | with the BootInfo reservations the frame region lies above a pool in the low 16 MB |
| FrameOwners.FixedRegionHitsPool | kernel/memory/physical/layout.rs:9-12 | the fixed region shares frames with every pool in the kernel image |
| FrameOwners.StartIsSound | kernel/memory/physical/buddy.rs:219-289 | after paging and allocator are initialised all invariants hold |
| FrameOwners.StackIsPrivateIff | kernel/process/process.rs:161-170 | the eight stack pages of a pid lie in the process's own PML4 entry if and only if the pid is at most 14913081 |
| FrameOwners.StackRunKeeps | kernel/process/process.rs:174-187 | building a stack there keeps all invariants, also when the pool runs dry half way |
| FrameOwners.SetupUserStack | kernel/process/process.rs:174-187 | the loop draws and maps page after page downwards, and returns the stack pointer if and only if all eight succeeded |
| StackWalks.MapKeepsPte | kernel/memory/paging/mapper.rs:150-188 | mapping a page of a process leaves the entry, flags included, of every other page that has a PT |
| StackWalks.DoKeepsPte | kernel/memory/paging/mapper.rs:563-593 | no act of anybody else, the kernel included, changes the entry that maps a user page of a process |
| StackWalks.RunKeepsPte | kernel/memory/paging/mapper.rs:563-593 | the same over every run of acts of others |
| StackWalks.StackRunWalks | kernel/process/process.rs:174-187 | once a stack is set up the walk finds a user-writable entry for every page of it |
| StackWalks.NewStackReady | kernel/process/lifecycle.rs:223-237 | so the check of the word below a new process's stack pointer succeeds, whatever others do before it first runs |
| AnonMaps.MapRunKeepsInv | kernel/syscall/dispatcher/mmap.rs:66-77 | mapping a run of anonymous pages to frames from the buddy allocator keeps every invariant of address spaces, pool and allocator, also when it fails half way |
| AnonMaps.MapRunMaps | kernel/syscall/dispatcher/mmap.rs:54-80 | a successful call maps exactly its pages, in order, to the frames it drew with the flags given; every other page of every root looks as before, permissions included |
| AnonMaps.RunsDryIff | kernel/syscall/dispatcher/mmap.rs:66-77 | with an allocator that serves while it has a free block, a call runs dry if and only if at one of its pages no block is free or the pool lacks the tables the walk needs |
| AnonMaps.PickedAreFresh | kernel/syscall/dispatcher/mmap.rs:66-77 | the frames a call draws are distinct and were in no user page |
| AnonMaps.AnonPage | kernel/syscall/dispatcher/mmap.rs:30-32 | the anonymous range is exactly PDPT entry 1 of PML4 entry 0 |
| AnonMaps.AnonIsPrivateIff | kernel/memory/paging/mapper.rs:506-560 | the anonymous range of a new process is empty and shares no table with the kernel if and only if the kernel had nothing at PDPT entry 1 |
| AnonMaps.StaysAnonIff | kernel/syscall/dispatcher/mmap.rs:95-109 | a munmap that passes its check stays in the process's range if and only if it ends below 2 GB |
| AnonMaps.UnmapRunClears | kernel/syscall/dispatcher/mmap.rs:95-111 | in range, it unmaps exactly its pages, leaves every other view, and keeps every invariant |
| AnonMaps.UnmapShared | kernel/syscall/dispatcher/mmap.rs:105-109 | where a process shares a page table with the kernel, unmapping takes the page from the kernel too |
| AnonMaps.AnonMapper.SysMmap | kernel/syscall/dispatcher/mmap.rs:40-91 | replies, bump pointer, zeroed frames and mappings for every argument, including a call that runs dry, which keeps its pages mapped and its pointer unmoved; RunsDryIff says when it does |
| AnonMaps.AnonMapper.SysMunmap | kernel/syscall/dispatcher/mmap.rs:95-111 | the loop unmaps page after page from the start given |
| AnonMaps.AnonMapper.ResetAnonForSlot | kernel/syscall/dispatcher/mmap.rs:114-118 | only that slot's pointer returns to the base |
| BuddyTree.CoversRange | kernel/memory/physical/buddy.rs:108-115 | a block of order k is a contiguous aligned run of 2^k pages |
| BuddyTree.AllocKeepsPartition | kernel/memory/physical/buddy.rs:297-330 | allocation hands out only free pages of the region, so neither allocation halt can fire, and free blocks still hold exactly the unmarked pages |
| BuddyTree.AllocKeepsNoFreeBuddies | kernel/memory/physical/buddy.rs:297-330 | splitting leaves no pair of free buddies |
| BuddyTree.AllocTakesFirst | kernel/memory/physical/buddy.rs:297-330 | the block handed out starts where the block it was split from starts |
| BuddyTree.FreeKeepsPartition | kernel/memory/physical/buddy.rs:343-359 | freeing once keeps the partition and full coalescing |
| BuddyTree.FreeAsWrittenHaltsIff | kernel/memory/physical/buddy.rs:343-359 | the free as written halts if and only if the block is not allocated or its buddy is free; otherwise it is the intended free |
| BuddyTree.FreeAfterSplitHalts | kernel/memory/physical/buddy.rs:343-359 | a block just split off a larger one cannot be freed as written |
| BuddyTree.FreeRunInOneBlock | kernel/memory/physical/buddy.rs:297-330 | with full coalescing every aligned free run lies in one free block |
| BuddyTree.AllocFailsIffNoRun | kernel/memory/physical/buddy.rs:297-330 | an order fails if and only if no aligned run of that many free pages exists |
| BuddyTree.AllFreedRestores | kernel/memory/physical/buddy.rs:343-359 | freeing everything restores the single initial block |
| BuddyTree.InitialBalanced | kernel/memory/physical/buddy.rs:219-289 | the initial free list balances |
| BuddyTree.RunBalanced | kernel/memory/physical/buddy.rs:297-359 | in every state of every run, held blocks are disjoint from each other and from free blocks and every page is in exactly one of them |
| BuddyTree.BalancedPage | kernel/memory/physical/buddy.rs:297-359 | a page of the region is in a free block or in a held one, never both |
| FreeLists.PushLinked | kernel/memory/physical/buddy.rs:131-166 | writing the old head into a block and making it the head keeps all threaded lists |
| FreeLists.PopLinked | kernel/memory/physical/buddy.rs:117-129 | following the head's link keeps all threaded lists |
| FreeLists.UnlinkLinked | kernel/memory/physical/buddy.rs:168-191 | pointing the predecessor past a block keeps all threaded lists |
| Buddy.LargestOrder | kernel/memory/physical/buddy.rs:268-272 | the loop finds the largest order that fits |
| Buddy.Allocator.constructor | kernel/memory/physical/buddy.rs:201-289 | seeding gives one free block of the largest order that fits |
| Buddy.Allocator.PopFree | kernel/memory/physical/buddy.rs:117-129 | takes the head of a list through its link |
| Buddy.Allocator.PushFree | kernel/memory/physical/buddy.rs:131-166 | puts a block at the head of a list |
| Buddy.Allocator.RemoveFromFreeList | kernel/memory/physical/buddy.rs:168-191 | the list walk finds a block if and only if it is listed and unlinks exactly it |
| Buddy.Allocator.MarkAllocRange | kernel/memory/physical/buddy.rs:76-90 | halts if and only if a page is outside the region or already marked; else marks exactly the range |
| Buddy.Allocator.MarkFreeRange | kernel/memory/physical/buddy.rs:92-106 | halts if and only if a page is outside the region or not marked; else clears exactly the range |
| Buddy.Allocator.AllocOrder | kernel/memory/physical/buddy.rs:297-330 | never halts; fails if and only if no order is left; else hands out the head of the lowest list that has one, from its first page on, split down |
| Buddy.Allocator.FreeOrder | kernel/memory/physical/buddy.rs:343-359 | the code as written, recursion included, halts exactly as FreeAsWritten says |
| Buddy.Allocator.FreeOrderOnce | kernel/memory/physical/buddy.rs:343-359 | with the range marked once, the merge loop computes FreeOnce and halts only on a page that is not allocated |
| MemMap.OverlapsIff | kernel/memory/physical/memmap.rs:32-36 | the saturating test is true if and only if the ranges share an address |
| MemMap.IsClear | kernel/memory/physical/memmap.rs:95-107 | the inner loop decides whether a range touches anything reserved |
| MemMap.ChooseConventionalRegion | kernel/memory/physical/memmap.rs:66-119 | the first of the largest usable ranges; none if and only if none is usable |
| MemMap.HandedOutIsConventional | kernel/memory/physical/frame_allocator.rs:103-129 | in every state of every run, a frame handed out lies in one conventional range and shares no byte with any reserved range |
| MemMap.FramesAboveKernel | kernel/memory/physical/memmap.rs:42-60 | with the BootInfo reservations no frame lies in the low 16 MB |
| MemMap.FrameOffDevices | kernel/memory/physical/memmap.rs:42-60 | no byte of such a frame lies in the low 16 MB, the framebuffer, the memory map, the NVMe registers or the ACPI root pointer's page |
| MemMap.OrderIsLeast | kernel/memory/physical/frame_allocator.rs:139-148 | alloc_contiguous asks for the smallest order that holds n pages |
| Eevdf.WeightBounds | kernel/process/scheduler/eevdf.rs:70-135 | for every weight of the table, slices and tick deltas lie between the constants used by the bounds |
| Eevdf.TickIsInverse | kernel/process/scheduler/eevdf.rs:267-283 | a tick adds the whole part of 1024000 / weight |
| Eevdf.SliceIsProportional | kernel/process/scheduler/eevdf.rs:131-135 | a slice is the whole part of 4000 * weight / 1024, at least 500, and in virtual time the whole part of that times 1024 / weight |
| Eevdf.WeightsFall | kernel/process/scheduler/eevdf.rs:70-84 | 1024 at nice 0, each nice level between 1.2 and 1.3 times the next, levels clamped to -20 and 19 |
| EevdfShares.ArrivalSays | kernel/process/scheduler/eevdf.rs:165-193 | an arrival takes the first free slot with vruntime at the clock and a deadline one slice later; it fails if and only if all 64 are taken; all else stays |
| EevdfShares.TickSays | kernel/process/scheduler/eevdf.rs:267-283 | a tick charges only the running slot, in inverse proportion to its weight, and reports expiry if and only if the deadline is reached |
| EevdfShares.RequeueSays | kernel/process/scheduler/eevdf.rs:287-304 | a requeue puts the running slot back not behind the clock with a fresh deadline and touches no other slot |
| EevdfShares.LeaveSays | kernel/process/scheduler/eevdf.rs:247-261 | leaving clears the first slot of the process, or the mark of the running one, and nothing else |
| EevdfShares.ReniceSays | kernel/process/scheduler/eevdf.rs:307-316 | renicing changes the weight of the first queued slot of the process and nothing else |
| EevdfShares.ShareLaw | kernel/process/scheduler/eevdf.rs:267-283 | over any run of events, what a process is charged times its weight is its ticks times 1024000, less than one weight per tick apart |
| EevdfShares.EqualChargeEqualShare | kernel/process/scheduler/eevdf.rs:267-283 | two processes charged alike over a run were ticked in the ratio of their weights, up to that rounding |
| EevdfRuns.RecomputeClock | kernel/process/scheduler/eevdf.rs:137-152 | the clock never falls and equals the least queued vruntime |
| EevdfRuns.SomeTaskEligible | kernel/process/scheduler/eevdf.rs:199-244 | with a task queued one is eligible, whatever the count says: the fallback branch is never taken |
| EevdfRuns.DequeueTakesBest | kernel/process/scheduler/eevdf.rs:199-244 | a dispatch takes an eligible task of earliest deadline |
| EevdfRuns.DequeueTakesNone | kernel/process/scheduler/eevdf.rs:199-244 | with nothing queued a dispatch takes nothing and changes nothing, even when the count is wrong |
| EevdfRuns.StepKeepsInv | kernel/process/scheduler/eevdf.rs:165-316 | every operation, with arrivals and preemptions at any time, keeps each queued vruntime between the clock and the clock plus a constant, and the clock never falls |
| EevdfRuns.RunKeepsInv | kernel/process/scheduler/eevdf.rs:165-316 | the same in every state of every run in which a running task whose expiry a tick reported is requeued, leaves or is replaced before the next tick |
| EevdfRuns.CountExactIff | kernel/process/scheduler/eevdf.rs:165-316 | the task count stays exact under every event, and under a preemption if and only if no arrival took the running task's slot |
| EevdfRuns.RequeueCountsIff | kernel/process/scheduler/eevdf.rs:287-304 | requeueing counts right if and only if the running task's slot is still free |
| EevdfRuns.ArrivalTakesRunningSlot | kernel/process/scheduler/eevdf.rs:176-187 | an arrival that finds the running task's slot first overwrites it, and requeueing counts it twice |
| EevdfRuns.FirstArrivalRunsInFirstSlot | kernel/process/scheduler/eevdf.rs:176-241 | the very first dispatch leads to that situation |
| EevdfRuns.TurnUsesCredit | kernel/process/scheduler/eevdf.rs:199-304 | each turn of another task lowers the total credit and leaves the waiting task as it was |
| EevdfRuns.BoundedBypass | kernel/process/scheduler/eevdf.rs:199-304 | with no arrivals, a waiting task is passed over no more often than the total credit, whatever the weights |
| EevdfRuns.BypassInNumbers | kernel/process/scheduler/eevdf.rs:199-304 | the bound as a number of turns from the tasks really queued, the spread and the smallest tick delta, also when the count is wrong |
| QueueSet.RoomToEnqueue | kernel/process/scheduler/eevdf.rs:190-191 | by pigeonhole, a process slot that is not queued leaves room, so the full-queue halt is unreachable |
| QueueSet.EnqueueAdds | kernel/process/scheduler/eevdf.rs:165-193 | enqueueing adds exactly that slot to the set of queued processes |
| QueueSet.DequeueTakes | kernel/process/scheduler/eevdf.rs:199-244 | dequeueing takes exactly the slot it returns |
| QueueSet.RemoveTakes | kernel/process/scheduler/eevdf.rs:247-261 | removing takes exactly that slot |
| EevdfRunQueue.RunQueue.RecomputeMinVruntime | kernel/process/scheduler/eevdf.rs:137-152 | the scan computes Recompute |
| EevdfRunQueue.RunQueue.EnqueueTask | kernel/process/scheduler/eevdf.rs:165-193 | the scan computes Enqueue, halt included |
| EevdfRunQueue.RunQueue.PickSlot | kernel/process/scheduler/eevdf.rs:207-231 | the single pass finds the best eligible slot or the fallback |
| EevdfRunQueue.RunQueue.DequeueTask | kernel/process/scheduler/eevdf.rs:199-244 | the in-place code computes Dequeue |
| EevdfRunQueue.RunQueue.RemoveTask | kernel/process/scheduler/eevdf.rs:247-261 | the in-place code computes Remove |
| EevdfRunQueue.RunQueue.TickCurrent | kernel/process/scheduler/eevdf.rs:267-283 | the in-place code computes Tick |
| EevdfRunQueue.RunQueue.RequeueCurrent | kernel/process/scheduler/eevdf.rs:287-304 | the in-place code computes Requeue |
| EevdfRunQueue.RunQueue.SetNiceOf | kernel/process/scheduler/eevdf.rs:307-316 | the in-place code computes SetNice |
| Processes.FirstFree | kernel/process/pid.rs:19-30 | the first free slot, or none if and only if all are occupied |
| Processes.IndexOf | kernel/process/pid.rs:135-146 | the slot of a pid, or none if and only if no entry has it |
| Processes.FirstDead | kernel/process/pid.rs:55-74 | a matching zombie, or none if and only if there is none |
| CallEffects.SpawnSays | kernel/process/lifecycle.rs:308-320 | the answer of a spawn in every case; the newcomer takes the first free slot with the next pid, its parent's label, and a bit if and only if the parent holds it and the mask is 0 or has it |
| CallEffects.ChildWithin | kernel/capability/mod.rs:73-77 | a child has no more capabilities than its parent, and no more than a mask other than 0 |
| CallEffects.MaskedChild | kernel/capability/mod.rs:73-77 | over every run after a spawn, a bit left out of the mask is not held by the child until it is granted |
| CallEffects.LackedUntilGranted | kernel/syscall/dispatcher/capability.rs:10-30 | over every run, a process does not come to hold a bit that nobody grants it |
| CallEffects.GrantSays | kernel/syscall/dispatcher/capability.rs:10-30 | a grant needs bit 0x800 and a process of that pid; it adds exactly those bits asked for that the granter holds, to that process alone |
| CallEffects.RevokeSays | kernel/syscall/dispatcher/capability.rs:34-51 | a revocation needs bit 0x800 and clears exactly the bits given, of that process alone |
| CallEffects.CanFlowIff | kernel/iflow/mod.rs:133-137 | data may flow if and only if the receiver holds all secrecy tags of the sender and the sender all integrity tags of the receiver |
| CallEffects.TaintSays | kernel/iflow/mod.rs:211-221 | tainting adds exactly the secrecy and drops exactly the integrity given, of the caller alone |
| CallEffects.DeclassifySays | kernel/iflow/mod.rs:224-234 | declassifying needs bit 0x20000 and drops exactly the secrecy given |
| CallEffects.EndorseSays | kernel/iflow/mod.rs:237-249 | endorsing needs bit 0x40000 and adds exactly the integrity given to the process named |
| CallEffects.SendSays | kernel/syscall/dispatcher/ipc.rs:16-45 | a send needs bit 0x10, a process of that pid, permitted flow and fewer than 32 queued messages, and is refused with its own error otherwise; it appends one message stamped with the sender's pid |
| CallEffects.ReceiveSays | kernel/syscall/dispatcher/ipc.rs:53-80 | a receive needs bit 0x20 and takes the oldest message |
| CallEffects.WaitSays | kernel/syscall/dispatcher/process.rs:38-83 | a wait frees the first zombie of that pid, or of any pid for 0 and 0xFFFFFFFF; without one it is refused or blocks with the stack pointer saved |
| CallEffects.ExitSays | kernel/process/pid.rs:150-169 | an exit wakes exactly the blocked processes that wait for its pid or for 0xFFFFFFFF |
| ProcessRuns.CreateOk | kernel/process/lifecycle.rs:27-160 | creation halts only where the loader does; it keeps the invariant, and on success adds exactly one runnable queued process with a fresh pid and its initial stack pointer |
| ProcessRuns.ScheduleOk | kernel/process/lifecycle.rs:164-254 | a dispatch picks a runnable process and halts if and only if its saved stack pointer is refused; the processor idles only when nothing is runnable |
| ProcessRuns.ExitOk | kernel/process/lifecycle.rs:257-302 | exit halts if and only if the process it hands over to has a stack pointer that is refused; else it clears the mailbox, wakes exactly those concerned and dispatches at most one |
| ProcessRuns.BlockOk | kernel/syscall/dispatcher/process.rs:58-83 | a blocking wait halts if and only if the process it hands over to has a stack pointer that is refused; else it saves the caller's and hands over |
| ProcessRuns.StepOk | kernel/process/lifecycle.rs:27-302 | every system call in every reachable state halts if and only if the loader does or it hands over to a process whose stack pointer is refused; otherwise at most one process runs and is current, every runnable process is queued exactly once, blocked and dead ones never, stack flags match occupied slots |
| ProcessRuns.StepEvolves | kernel/process/lifecycle.rs:27-302 | the complete list of ways any call can change any slot |
| ProcessRuns.StepMissesNothing | kernel/process/pid.rs:150-169 | no process is ever blocked on a zombie, except in waitpid(0) |
| ProcessRuns.MatchesDifferOnZero | kernel/process/pid.rs:57-159 | reaping and waking read the argument alike if and only if it is not 0 |
| ProcessRuns.ExitWakesIff | kernel/process/pid.rs:150-169 | in every scheduled state, an exit that a blocked process waits for wakes it if and only if it does not wait on 0 |
| ProcessRuns.ZeroStuckForever | kernel/process/pid.rs:150-169 | a process blocked in waitpid(0) is blocked in every later state of every run |
| ProcessRuns.RecordKeepsStatus | kernel/process/pid.rs:55-74 | each exit status is reaped at most once, with the value given at exit |
| ProcessRuns.RunKeepsWorld | kernel/syscall/dispatcher/process.rs:38-83 | every state a run passes through satisfies all of the above |
| ProcessRuns.RunHaltsIff | kernel/process/lifecycle.rs:164-254 | a run halts if and only if one of its calls is reached and makes the loader halt or hands over to a process whose saved stack pointer is refused; nothing else halts the kernel |
| ProcessRuns.ReapTellsIff | kernel/syscall/dispatcher/process.rs:42-49 | a wait that finds a zombie frees its slot in any case and reports the status if and only if the address for it is 0 or valid |
| ProcessRuns.GoneIsNeverTold | kernel/syscall/dispatcher/process.rs:42-49 | over every run, a process that was reaped is never reported by a later wait |
| UserStacks.NewStackEnterable | kernel/process/process.rs:161-187 | the stack pointer a process is created with always passes the checks |
| UserStacks.StackSays | kernel/process/process.rs:161-187 | a stack is eight writable user pages up to 0x7FFFFFFFF for the first pid and nine pages lower for each pid after it |
| UserStacks.EnterableIff | kernel/process/lifecycle.rs:211-237 | the checks written out: at most 0x7FFFFFFFF000, a multiple of 16, and writable user memory eight bytes below |
| SavedFrames.SlotFrameIff | kernel/syscall/dispatcher/process.rs:58-72 | after any call, a waiting process has a stack pointer that will be refused if and only if it had one before or the call is its own blocking wait with one |
| SavedFrames.FramesOkIff | kernel/syscall/dispatcher/process.rs:58-72 | from good saved stack pointers a call leaves good ones if and only if it is no such wait |
| SavedFrames.GoodFramesHaltIff | kernel/process/lifecycle.rs:211-237 | with good saved stack pointers a call halts if and only if the loader does |
| SavedFrames.WellBehavedNeverHalts | kernel/process/lifecycle.rs:211-237 | a run whose blocking waits are made with good stack pointers and whose programs load never halts |
| SavedFrames.DoomedForever | kernel/process/lifecycle.rs:211-237 | a process that blocked with a bad stack pointer never runs again: every run halts or leaves it waiting |
| FirstRuns.WaitHaltsIff | kernel/process/lifecycle.rs:211-237 | from boot, a spawn, a waitpid for the child and the child's exit halt the kernel if and only if the parent's stack pointer at the call is refused; otherwise the parent runs again |
| FirstRuns.OddWordHalts | kernel/process/lifecycle.rs:215-218 | for instance with any stack pointer that is 8 modulo 16 |
| FirstRuns.BootNeverHalts | kernel/process/lifecycle.rs:164-254 | a booted kernel has good stack pointers only, so its well-behaved runs never halt |
| FirstRuns.StuckRun | kernel/syscall/dispatcher/process.rs:38-83 | from boot, a spawn, waitpid(0) and the child's exit do not halt and leave the first process blocked beside a zombie its wait would reap |
| FirstRuns.StuckAfterBoot | kernel/syscall/dispatcher/process.rs:38-83 | however that run goes on, the first process stays blocked |
| ProcessRuns.BootOk | kernel/init/main.rs:226-231 | boot succeeds, the invariants hold, and the first process runs while still queued |
| Capabilities.StepCaps | kernel/capability/mod.rs:53-77 | every way a call can change a capability set |
| Capabilities.UnheldForever | kernel/syscall/dispatcher/capability.rs:10-51 | over every run, a capability bit no process holds never reappears |
| Capabilities.FrozenWithoutGrant | kernel/syscall/dispatcher/capability.rs:10-51 | over every run, once no process holds the grant capability no existing process's set changes |
| Mailboxes.SendKeepsMailIff | kernel/syscall/dispatcher/ipc.rs:16-45 | an accepted send keeps the mailboxes right if and only if it does not name a dead process |
| Mailboxes.LoudKeepsMail | kernel/process/lifecycle.rs:274-275 | exit, reap and slot reuse leave every live process exactly its own mail |
| Mailboxes.MailOrder | kernel/syscall/dispatcher/ipc.rs:16-80 | over every run without sends to dead processes, what a process received is a prefix of what was accepted for its pid, in order, with the kernel's sender, across slot reuse |
| Mailboxes.DeadMailReachesNext | kernel/process/pid.rs:135-146 | a message sent to a dead process is first in the mailbox of the next process in its slot |
| Mailboxes.BootMail | kernel/process/ipc.rs:60 | the booted kernel starts with no mail |
| FlowLabels.FlowTransitive | kernel/iflow/mod.rs:133-137 | permitted flow is transitive |
| FlowLabels.TaintFlows | kernel/iflow/mod.rs:101-104 | tainting moves a label only to where it could flow |
| FlowLabels.StepFlow | kernel/iflow/mod.rs:98-122 | without declassify and endorse, a label changes only by its owner's taint or by inheritance |
| FlowLabels.LabelsSound | kernel/syscall/dispatcher/mod.rs:189-203 | over every run without declassify, endorse and sends to dead processes, data that reached a process through any chain of messages and spawns came from sources whose secrecy it carries and who held every integrity tag it keeps |
| FlowLabels.BootLabelsSound | kernel/init/main.rs:226-231 | the same for every such run of a booted kernel, whose past is empty |
| FlowLabels.DeadMailCrossesLabels | kernel/process/pid.rs:135-146 | a message sent to a dead process reaches, after a wait, a reap and a spawn, a newcomer with a label to which the sender may not flow |
| MailRings.IpcQueues.constructor | kernel/process/ipc.rs:22-30 | all rings start empty |
| MailRings.IpcQueues.Enqueue | kernel/process/ipc.rs:32-40 | appends to that slot's queue, across wrap-around, or refuses if and only if it is full or there is no such slot |
| MailRings.IpcQueues.Dequeue | kernel/process/ipc.rs:42-50 | removes the oldest message, across wrap-around |
| MailRings.IpcQueues.Clear | kernel/process/ipc.rs:52-56 | empties that slot's queue and no other |
| ProcessKernel.KernelState.ReapDead | kernel/process/pid.rs:55-74 | the scan reaps the first matching zombie and frees its slot and stack |
| ProcessKernel.KernelState.IndexOfPid | kernel/process/pid.rs:135-146 | the scan computes IndexOf |
| ProcessKernel.KernelState.WakeWaitersFor | kernel/process/pid.rs:150-169 | the scan computes WakeFrom |
| ProcessKernel.KernelState.RunFirst | kernel/process/lifecycle.rs:164-254 | the in-place code computes RunProcess, with its checks in order |
| ProcessKernel.CheckStack | kernel/process/lifecycle.rs:211-237 | the checks, one by one, decide Enterable |
| ProcessKernel.ValidateUserRange | kernel/syscall/user_ptr.rs:49-76 | the page loop decides whether a buffer is mapped user memory |
| ProcessKernel.KernelState.CreateUserProcess | kernel/process/lifecycle.rs:27-160 | the in-place code computes Create, with its failure paths and the loader's halt |
| ProcessKernel.KernelState.ExitCurrentAndSchedule | kernel/process/lifecycle.rs:257-302 | the in-place code computes the exit step, halts of its dispatch included |
| ProcessKernel.KernelState.SysSpawn | kernel/syscall/dispatcher/process.rs:14-20 | the in-place code computes the spawn step |
| ProcessKernel.KernelState.SysWaitpid | kernel/syscall/dispatcher/process.rs:38-83 | the in-place code computes the wait step: reap and tell, reap and refuse, refuse, or save the stack pointer and block |
| ProcessKernel.KernelState.SysIpcSend | kernel/syscall/dispatcher/ipc.rs:16-45 | the in-place code computes the send step behind its capability and flow checks |
| ProcessKernel.KernelState.SysIpcRecv | kernel/syscall/dispatcher/ipc.rs:53-80 | the in-place code computes the receive step |
| ProcessKernel.KernelState.Dispatch | kernel/syscall/dispatcher/mod.rs:189-203 | the whole dispatcher refines the step function all run theorems are about; in a scheduled kernel it halts exactly as Halts says, with good saved stack pointers only where the loader does, and otherwise leaves it scheduled |
| ElfCorrect.PieceWants | kernel/process/loader/elf.rs:140-149 | the piece copied into a page, and zeros after it, are what the segment should hold there |
| ElfCorrect.SamePage | kernel/process/loader/elf.rs:155-182 | loading a page gives the segment's bytes from its start on and keeps earlier bytes of a shared page |
| ElfCorrect.OtherPage | kernel/process/loader/elf.rs:154-187 | loading a page leaves every other page's frame alone |
| ElfCorrect.PageKeepsSound | kernel/process/loader/elf.rs:174-187 | new pages stay zero beyond what has been loaded, which is why shared pages need no zeroing |
| ElfCorrect.SegmentLoads | kernel/process/loader/elf.rs:136-217 | a loaded segment holds its file bytes, then zeros, and everything loaded before it is kept |
| ElfCorrect.ImageIsFile | kernel/process/loader/elf.rs:73-218 | after a successful load of ascending, non-overlapping segments into an unmapped range, every byte of every segment is its file byte, or zero past the file part, also on shared pages; pages mapped before are untouched and the entry lies in a segment |
| ElfHeaders.LeInverts | kernel/process/loader/elf.rs:43-60 | reading a little-endian number gives the number that was written |
| ElfHeaders.SegmentIsHeader | kernel/process/loader/elf.rs:76-91 | a file that holds the 56 bytes of a program header yields exactly the segment the header asks for |
| ElfHeaders.HeaderIsFile | kernel/process/loader/elf.rs:31-57 | a file that holds the 64 bytes of a file header is accepted if and only if it is a 64-bit x86 program, and its entry and header places are those of the header |
| ElfHeaders.ProgramIsLoaded | kernel/process/loader/elf.rs:29-222 | for a file encoded from a file header and program headers: once loaded, every byte from p_vaddr on is the file byte from p_offset on, or zero past p_filesz, for every header of type 1, and e_entry lies in one of them |
| ElfCorrect.LoadsWhenServed | kernel/process/loader/elf.rs:29-222 | with frames enough, pages that can be mapped and text checks inside the page, a file is loaded if its entry lies in a segment and halts the kernel otherwise |
| ElfCorrect.NewPageCleanIff | kernel/process/loader/elf.rs:154-182 | a new page holds only the segment's bytes and zeros if and only if its frame held zeros before the segment's start |
| ElfCorrect.AlwaysCleanIff | kernel/process/loader/elf.rs:174-182 | it does whatever the frame held if and only if the segment starts at or before the page |
| ElfCorrect.ProbePassesIff | kernel/process/loader/elf.rs:188-214 | the 16-byte text check passes if and only if the bytes past the frame happen to match; with 16 bytes left in the page it always passes |
| LoadBounds.LoadRangePage | kernel/memory/paging/mapper.rs:506-560 | the private load range is exactly pages 0xA00 to 0xBFF |
| LoadBounds.StaysPrivateIff | kernel/process/loader/elf.rs:136-187 | the pages loaded for a segment are all in the private range if and only if it lies in [0xA00000, 0xC00000) |
| LoadBounds.LoadOverwrites | kernel/process/loader/elf.rs:155-187 | on a page already mapped the file bytes land in the frame behind it |
| LoadBounds.LoadOutsideHitsKernel | kernel/process/loader/elf.rs:155-187 | outside the private ranges, a page loaded under one of the kernel's page tables is mapped for the kernel too |
| ElfLoader.Loader.ProbeText | kernel/process/loader/elf.rs:191-209 | the loop decides ProbeOk |
| ElfLoader.Loader.LoadOnePage | kernel/process/loader/elf.rs:139-214 | the in-place code computes LoadPage, with its failures and halt |
| ElfLoader.Loader.LoadSegment | kernel/process/loader/elf.rs:136-217 | the page loop computes LoadFrom |
| ElfLoader.Loader.Load | kernel/process/loader/elf.rs:29-222 | the header checks, the segment loop and the entry check compute LoadElf |
| SimpleFs.BlocksFor | kernel/fs/simple_fs.rs:268-269 | the least number of blocks that holds n bytes |
| FsRuns.SizeIsRounded | kernel/fs/simple_fs.rs:206-224 | the recorded size after a write is the old size or the end rounded up to blocks, except for a first write that ends in the last block below 4 GB |
| FsRuns.CreateSays | kernel/fs/simple_fs.rs:152-186 | a file is created if and only if the volume is mounted, the name has at most 32 bytes and a record is free; the first free record gets the name padded with zeros, size 0 and the next free block |
| FsRuns.DeleteSays | kernel/fs/simple_fs.rs:308-320 | a record is freed if and only if the volume is mounted and it exists; nothing else changes |
| FsRuns.WriteSays | kernel/fs/simple_fs.rs:259-305 | a write changes exactly the bytes of the device it covers, as far as the device reaches, and returns how many |
| FsRuns.ReadSays | kernel/fs/simple_fs.rs:227-256 | byte i of a read exists if and only if the file does, the buffer is that long, and the byte lies below the recorded size and on the device; it is the device's byte |
| FsRuns.AllocKeepsApart | kernel/fs/simple_fs.rs:152-186 | a new file overlaps no other |
| FsRuns.FreeKeepsApart | kernel/fs/simple_fs.rs:308-320 | deleting a file keeps the others apart |
| FsRuns.WriteKeepsApartIff | kernel/fs/simple_fs.rs:206-224 | a write, also one of which no byte fits the device, keeps the files apart if and only if no other file starts in the blocks the file will hold |
| FsRuns.LastFileHasRoom | kernel/fs/simple_fs.rs:176-180 | the file created last always has room |
| FsRuns.WriteThenRead | kernel/fs/simple_fs.rs:227-305 | a read after a write at the same offset returns the data, across block boundaries, as far as device and 32-bit size reach |
| FsRuns.WriteKeepsRest | kernel/fs/simple_fs.rs:259-305 | a write keeps every other byte of its file |
| FsRuns.WriteKeepsOthers | kernel/fs/simple_fs.rs:259-305 | with room, a write changes no byte of any other file |
| FsRuns.LastWriteWins | kernel/fs/simple_fs.rs:152-320 | after any run of creations, writes with room and deletions, reading returns at every written position the byte written there last |
| FsRuns.FormattedInvIff | kernel/fs/simple_fs.rs:66-84 | a volume just formatted is an empty file system if and only if the record table it left alone held no live record |
| FsVolume.Volume.ReadBlock | kernel/fs/simple_fs.rs:38-45 | a block is read whole or refused |
| FsVolume.Volume.WriteBlock | kernel/fs/simple_fs.rs:47-54 | a block is written whole or refused |
| FsVolume.Volume.AllocFileRecord | kernel/fs/simple_fs.rs:152-186 | the scan computes AllocRecord |
| FsVolume.Volume.FreeFileRecord | kernel/fs/simple_fs.rs:308-320 | the in-place code computes FreeRecord |
| FsVolume.Volume.ReadFileData | kernel/fs/simple_fs.rs:227-256 | the block-by-block loop fills the buffer with Read and leaves the rest of it |
| FsVolume.Volume.CopyIn | kernel/fs/simple_fs.rs:276-292 | the read-modify-write loop overlays exactly the data, as far as the device reaches |
| FsVolume.Volume.WriteFileData | kernel/fs/simple_fs.rs:259-305 | the in-place code computes Write, growth included |
| HeapModel.KindOf | kernel/memory/heap/allocator.rs:66-73 | the least class that holds the request; a page if and only if it exceeds 1024 bytes |
| HeapCapacity.ClassBytes | kernel/memory/heap/allocator.rs:64-64 | class k is 2^(k+3) bytes, list 8 a page |
| HeapCapacity.ClassIsLeast | kernel/memory/heap/allocator.rs:66-124 | a request needs its size, its alignment and 16 bytes, and gets the smallest power of two from 8 to 1024 that holds them, or a page |
| HeapCapacity.AllocUsesOne | kernel/memory/heap/allocator.rs:100-133 | a fitting request takes one block of what its class can still give, counting pages not yet cut |
| HeapCapacity.ServedIff | kernel/memory/heap/allocator.rs:100-133 | fitting requests of one class are all served if and only if they are no more than that |
| HeapCapacity.InitialServes | kernel/memory/heap/allocator.rs:20-133 | from the initial pool: if and only if they are no more than 256 pages hold blocks of the class |
| HeapRuns.BlocksApart | kernel/memory/heap/slab.rs:11-31 | two different blocks share no word |
| HeapRuns.RegionFitsIff | kernel/memory/heap/allocator.rs:119-133 | a user region lies inside its block if and only if the request fits in a page |
| HeapRuns.CutAll | kernel/memory/heap/slab.rs:11-31 | cutting a page puts all its objects on the list of its class and disturbs nothing else |
| HeapRuns.CarveKeeps | kernel/memory/heap/cache.rs:33-46 | refilling a cache moves one page from the pool to the class and keeps the heap intact |
| HeapRuns.AllocFailsIff | kernel/memory/heap/allocator.rs:100-124 | allocation fails if and only if neither the class nor the pool has a block, and then changes nothing |
| HeapRuns.AllocKeeps | kernel/memory/heap/allocator.rs:119-133 | a fitting request gets a region in a block that was not live, and the heap stays intact |
| HeapRuns.FreeKeeps | kernel/memory/heap/allocator.rs:137-144 | freeing by the header returns the block to the class it came from |
| HeapRuns.StoreKeeps | kernel/memory/heap/cache.rs:26-56 | a store into a live region touches no link and no header |
| HeapRuns.HeldAligned | kernel/memory/heap/allocator.rs:127-128 | live regions are aligned and inside the pool |
| HeapRuns.HeldApart | kernel/memory/heap/allocator.rs:126-132 | live regions are disjoint, headers included |
| HeapRuns.InitialSafe | kernel/memory/heap/allocator.rs:20-32 | the initialised pool is sound |
| HeapRuns.HeapStaysSafe | kernel/memory/heap/allocator.rs:20-144 | over every run of fitting requests, frees and stores into held regions, all of this holds, and every block of all 256 pages is free on its class's list or live, never both |
| KernelHeap.KernelAllocator.Init | kernel/memory/heap/allocator.rs:20-32 | the descending loop links all pages |
| KernelHeap.KernelAllocator.PartitionPage | kernel/memory/heap/slab.rs:11-31 | the loop computes Partition |
| KernelHeap.KernelAllocator.SizeToClass | kernel/memory/heap/allocator.rs:66-73 | the scan of the class table computes KindOf, the least class that holds the request |
| KernelHeap.KernelAllocator.AllocBlock | kernel/memory/heap/cache.rs:26-47 | the in-place code computes AllocRaw |
| KernelHeap.KernelAllocator.AllocWithHeader | kernel/memory/heap/allocator.rs:119-133 | the in-place code computes Alloc, and keeps the heap sound when the request fits |
| KernelHeap.KernelAllocator.FreeWithHeader | kernel/memory/heap/allocator.rs:137-144 | the in-place code computes Free and keeps the heap sound |

## Left out

- KernelHeap.KernelAllocator.AllocWithHeader: alignments above 4096 bytes are not modelled; the aligned pointer is then past the page, so the header can land outside the block.
- PageMapping.PageMapper.IdentityMapRange: ranges that end past 2^48 are not modelled; the table indices then wrap, so pages mapped first are mapped again.
- PageMapping.PageMapper.InitPaging: says nothing of a kernel that halts or gets no root, and is stated for frame regions below 2^48.
- AddressSpaces.StepKeepsInv: takes from the caller that a frame is not in user use; FrameOwners.DoKeeps derives it from the allocator and the pool.
- AddressSpaces.RunKeepsInv: likewise; FrameOwners.RunKeepsOwners derives it over runs.
- FrameOwners.RunKeepsOwners: user mappings stay in the process's own ranges, which loader, stack set-up and munmap do not see to; StaysPrivateIff, StackIsPrivateIff, AnonIsPrivateIff and StaysAnonIff give the exact conditions.
- FrameOwners.SetupUserStack: pids whose window would pass address 0 are not modelled.
- AnonMaps.MapRunKeepsInv: covers processes created while the kernel's PDPT entry 1 was empty; AnonIsPrivateIff gives the exact condition.
- AnonMaps.MapRunMaps: covers the same processes.
- LoadBounds.StaysPrivateIff: segments that end past 2^48, whose table indices wrap, are not covered; empty segments are skipped by the loader.
- Buddy.Allocator.FreeOrder: addresses that are not aligned to their order are not modelled; no allocation of that order hands one out.
- Buddy.Allocator.FreeOrderOnce: models the intended marking, once on entry; the code as written is FreeOrder. Unaligned addresses as there.
- ElfLoader.Loader.LoadOnePage: page tables are a map from pages to frames with a fixed set of pages that cannot be mapped; the tables themselves are the paging model.
- ProcessKernel.KernelState.SysWaitpid: the bytes written at the status address, and the instruction pointer and flags saved beside the stack pointer, are not modelled.
- FsRuns.LastWriteWins: requires room for growing writes, which the code does not check; WriteKeepsApartIff gives the exact condition.
- Mailboxes.MailOrder: requires that no send names a dead process, which the code does not check; SendKeepsMailIff gives the exact condition.
- FsVolume.Volume.WriteFileData: device errors other than running off the end of the device are not modelled.
- Integer width where it does not matter to a claim: pids after 2^32 spawns, vruntime overflow, sums of 64-bit addresses and buffers of 4 GB and more are unbounded here. Saturating and wrapping arithmetic of file sizes and memory ranges is modelled.
- Bitmap words: the buddy bitmap is an array of booleans, not of packed words.
- Addresses in paging, buddy and heap are page, frame or word numbers; the bits of page-table entries are covered by `PteBits`.
- The on-disk byte layout of the volume header and record table, mounting, name lookup and directory listing.
- Permissions of the pages the ELF loader maps (those of the first segment on a page apply): the loader model maps pages to frames; and the checks of entry, data and BSS pages at process creation: with the loader they are one outcome here, pages mapped, failure or halt.
- User pointer validation in system calls other than waitpid, and the restart of a blocked waitpid at the SYSCALL instruction.
- In the process model, what a process has mapped is part of its table entry, and mapping calls change the caller's own part in any way. That nobody else changes it is StackWalks.RunKeepsPte, for pages in the process's own ranges.
- SYS_SET_NICE as a system call; the runqueue operation behind it is modelled.
- The kernel's fallback when no kernel root is recorded, `map_page` with its table relocation, PCIDs, TLB flushes, logging, canaries and diagnostic dumps.
- Processes beyond the calls modelled: file descriptors, perf counters, debug registers and compositor state released on exit.
- Shared memory, surfaces, drivers, window managers, applications and the boot loader: device plumbing or easy members.
