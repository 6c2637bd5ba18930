# Verified models of QEMU's core protocols

This project models, in Dafny 4.11, five parts of QEMU whose correctness is spread over many
functions, and proves what they are for:

- **Block requests** (`qemu/block.c`): tracked requests and their mutual exclusion, the unaligned
  read-modify-write cycle, merging of write requests, and committing an image into its backing
  file.
- **Physical memory dispatch and RAM blocks** (`qemu/exec.c`): the radix tree from page to
  section, its compaction, subpages, and the allocator and lookup of RAM blocks.
- **Live migration of RAM** (`qemu/arch_init.c`, `qemu/migration/xbzrle.c`, `qemu/page_cache.c`):
  dirty bitmap, page search, delta coding with its cache, the stream and its loader.
- **Guest memory dumps** (`qemu/dump.c`): the ELF dump and the kdump-compressed dump.
- **Caches and wakeups** (`qemu/cputlb.c`, `qemu/softmmu_template.h`, `qemu/async.c`,
  `qemu/aio-posix.c`): the software TLB, and bottom halves with the event notifier.

`dafny verify dfyconfig.toml` covers all files.  One module per file:

| files | subject |
|---|---|
| `TrackedRequests`, `BlockWrites`, `BlockWritesProofs`, `BlockWritesBytes`, `BlockWritesTheorems`, `BlockWritesLoss`, `BlockWritesProgress`, `AlignedIo` | requests on one device: the code of each step, the state machine over all interleavings, its invariants, the theorems |
| `Multiwrite`, `Commit` | write merging, commit |
| `PageKeys`, `PhysPageTree`, `PhysPageCompact`, `PhysPageMap`, `MemoryDispatch`, `AddressSpace` | from page arithmetic to the dispatch table of an address space |
| `RamList` | RAM blocks |
| `MigrationBitmap`, `DirtyPages`, `RamSearch`, `PageCache`, `Xbzrle`, `RamMigration`, `BulkStage`, `MigrationRun` | migration, from bits to whole runs |
| `RamStream`, `RamSetup`, `LiveMigration` | the bytes of the stream, their loader, and a migration from end to end |
| `DumpElf`, `KdumpFile`, `Kdump`, `KdumpBitmap`, `KdumpPages`, `KdumpWhole` | dumps |
| `SoftTlb`, `Wakeup` | software TLB, wakeups |
| `Bytes`, `Words`, `MachineWords`, `Alignment` | shared definitions |

## How the models are built

Code that updates state in place is a class or a loop with invariants, proved against functions
on values; concurrency is a state machine whose steps are the pieces of code between two points
where something else can happen.

- Coroutines of the block layer yield only at I/O and at waits, so a step runs from one such point
  to the next.  The driver applies the bytes of a write one at a time and in any order, and other
  requests may run between any two bytes.  A request may fail at any of its I/O: a write whose
  driver call or flush fails leaves on the disk the bytes that it has put there by then, also past
  the end of the image, and the recorded length stays.
- Wakeups interleave at single accesses to shared variables, under sequential consistency.  Each
  flag of a bottom half is read and written by a step of its own.
- During migration, what the sender reads of a page is arbitrary while the dirty log holds the
  page, so guest writes in the middle of a read are covered.
- What may go wrong outside the model (a driver call, a write to a file, an allocation, a
  compressor) is a method that promises nothing about whether it succeeds; callers are proved for
  both outcomes.
- Integers are unbounded except where the width matters: 64-bit wrap-around in
  `RamList.Hit` and `AddressSpace.HeadLength`, bit-vectors in `SoftTlb` and
  `MachineWords`, fixed-width numbers in the stream and the dumps.

## Where the code falls short of its purpose

- **A page can be lost in the bulk stage.**  `ram_find_and_save_block` clears a bit without sending
  the page exactly when the bulk stage is on, the last page sent is the last page of the last
  block (and not its first), and that page is the only dirty page in use
  (`RamMigration.Source.FindAndSaveBlock`).  Whether a whole migration loses the page is decided by
  its blocks and events alone: `BulkStage.LostBy` computes it, `MigrationRun.Migrate` proves that
  exactly this page is lost and no other, `BulkStage.LossNeedsWrite` bounds it, and
  `MigrationRun.LosesPage` is a run that loses one.
- **The dirty page counter can drift.**  The word-wise path of `migration_bitmap_sync_range` keeps
  `migration_dirty_pages` equal to the number of dirty pages in use if and only if no page outside
  every block is logged and missing from the bitmap in the words it covers
  (`DirtyPages.Tracker.SyncRange`); `DirtyPages.CounterDrifts` is a sync after which it is wrong.
- **A failed extending write can be undone in part by a later write.**  Its bytes past the recorded
  length stay on the disk but read as zeros, so a later unaligned write to the same block carries
  zeros along and puts them over these bytes (`qemu/block.c:3070-3108, 3358-3374`).  Exactly the
  carried-along bytes at or past the sampled length that are not zero are changed
  (`BlockWritesProofs.CarriedExactly`, `BlockWritesTheorems.OneStepOwn`); a byte ends up with the
  last data written to it if and only if none such came over it since
  (`BlockWritesTheorems.LostExactly`), and always if no failing write has left it past the end
  (`BlockWritesTheorems.NoLostUpdate`).  `BlockWritesLoss.FailureLoses` is a run that loses a byte.
- **`find_ram_offset` looks only at gaps that follow a block.**  It gives up exactly when none of
  these is large enough (`RamList.List.FindRamOffset`), even if there is room below the first
  block: `RamList.GivesUp` reaches such a list by adding two blocks and freeing the lower one.
- **A page can have two TLB entries.**  The comment at `qemu/cputlb.c:245` says that there is at
  most one for a virtual address, but the old entry of the slot becomes a victim whatever page it
  is for (`qemu/cputlb.c:299-301`).  After `tlb_set_page` a page has at most one entry in the mode if
  and only if it had at most one without the victim overwritten, and none if the new entry is for
  it (`SoftTlb.Tlb.SetPage`, `SoftTlb.AtMostOneAfter`); `SoftTlb.TwoEntries` sets a page twice.

## Model

| member | source | states |
|---|---|---|
| TrackedRequests.FirstBlocker | qemu/block.c:2486-2510 | the position waited for is the first other request, not waiting itself, whose window overlaps and of which one is serialising; -1 only if there is none |
| TrackedRequests.OverlapsExactly | qemu/block.c:2458-2470 | two requests overlap if and only if their windows share a byte, or one is an empty window strictly inside the other |
| TrackedRequests.BlockerMeets | qemu/block.c:2486-2510 | the scan waits for no one exactly if no other request that does not wait meets this one with one of the two serialising; otherwise for the first such request |
| TrackedRequests.ShortcutAgrees | qemu/block.c:2472-2482 | with no serialising request in flight the full scan would find nothing, so skipping it changes no answer |
| TrackedRequests.MarkedWindow | qemu/block.c:2409-2422 | a marked request's window is exactly the aligned range around its bytes, and marking it again changes nothing |
| TrackedRequests.DeviceRequests.TrackedRequestBegin | qemu/block.c:2388-2407 | the new request is first in the list, its window is its own bytes, and the count of serialising requests stays exact |
| TrackedRequests.DeviceRequests.MarkRequestSerialising | qemu/block.c:2409-2422 | exactly this request is marked, and the count of serialising requests stays exact |
| TrackedRequests.DeviceRequests.TrackedRequestEnd | qemu/block.c:2375-2383 | exactly this request leaves and the count stays exact |
| TrackedRequests.DeviceRequests.WaitSerialisingRequests | qemu/block.c:2472-2514 | with or without the shortcut, it waits for exactly the request that the full scan finds, and only for one that meets this one |
| BlockWritesProofs.NoSecondWait | qemu/block.c:3456-3456 | a request past its first wait finds nothing to wait for when it scans again |
| BlockWritesProofs.CarriedExactly | qemu/block.c:3410-3480 | a byte that a read-modify-write carries along is written back with the value the disk has at that moment if and only if it is below the length sampled when its block was read, or is zero; otherwise it is written as zero |
| BlockWritesProofs.StepInv | qemu/block.c:3381-3503 | every step of every request keeps the invariant on windows, waiters and buffers, a failure in the middle of a write included |
| BlockWritesTheorems.RunInv | qemu/block.c:3381-3503 | the invariant holds after every run of requests, in every interleaving and with failures anywhere |
| BlockWritesTheorems.Serialised | qemu/block.c:2458-2514 | in every run: no two granted requests overlap if one is serialising, every waiter waits for a request that has ended, or that does not wait and meets it with one of the two serialising, and no assertion of the request code fails |
| BlockWritesTheorems.OneStepOwn | qemu/block.c:3321-3376 | a step changes a byte of the disk by writing a request's own data to it, or by putting a zero over it that was carried along from past a sampled length, and by nothing else |
| BlockWritesTheorems.LostExactly | qemu/block.c:3321-3503 | over every run a byte holds the last own data written to it, or its initial value, if and only if no carried-along zero has been put over it since |
| BlockWritesBytes.ByteStep | qemu/block.c:3321-3503 | as long as no failing write leaves a byte past the end, every step keeps it below the recorded length, or zero, or being written right now, and read as it is by every request |
| BlockWritesTheorems.NoLostUpdate | qemu/block.c:3381-3503 | after any run in which no failing write leaves the byte past the end of the device, it holds the last own data written to it, or its initial value, whatever blocks were read and written back around it and whatever else failed |
| BlockWritesLoss.FailureLoses | qemu/block.c:3321-3376 | for any block size and data, a run in which a byte that a failed extending write has put on the disk is overwritten with zero by a write of the byte beside it |
| BlockWritesTheorems.WriteLands | qemu/block.c:3381-3503 | when a serialising write completes, all of its own bytes are on the disk |
| BlockWritesTheorems.QuiescentEnd | qemu/block.c:3321-3376 | with nothing in flight, every byte past the recorded end is zero, except those that a failing write has left there |
| BlockWritesProgress.StepCloser | qemu/block.c:2472-2514 | each productive step of a request in flight lowers the bound on the steps left, a request that ends and so wakes others included |
| BlockWritesProgress.SomeoneMoves | qemu/block.c:2472-2514 | no deadlock: while a request is in flight, some request can take a productive step that is not an error |
| BlockWritesProgress.EveryRunEnds | qemu/block.c:2472-2514 | no livelock: every run of productive steps, however scheduled, is no longer than the bound at its start, and where only errors are left to happen every request has completed |
| BlockWritesProgress.Drains | qemu/block.c:2472-2514 | from every reachable state the requests in flight can run to completion without an error |
| AlignedIo.Image.AlignedPreadv | qemu/block.c:3036-3119 | the buffer gets the bytes of the image and zeros past its end, whatever the driver returns there; the driver is asked for nothing past the block in which the image ends |
| AlignedIo.Image.AlignedPwritev | qemu/block.c:3321-3376 | exactly the bytes of the vector change, and the length becomes the larger of the old one and the end of the write, in whole sectors |
| AlignedIo.Image.PadVector | qemu/block.c:3405-3480 | the vector handed to the driver is the start of the head block, the data and the end of the tail block, also when both are one block |
| AlignedIo.Image.CoDoPwritev | qemu/block.c:3381-3503 | for any offset, length and alignment, the request's own bytes become its data; of the other bytes of its blocks those past the end of the image become zero; no other byte of the disk changes |
| AlignedIo.PaddingRead | qemu/block.c:3405-3480 | the bytes around the data are written as they were read: as the disk has them below the end of the image, and zeros past it |
| AlignedIo.VectorIsQiov | qemu/block.c:3405-3480 | the vector that the code assembles is byte for byte the one of the concurrent model |
| Multiwrite.Concat | qemu/util/iov.c:298-338 | the pieces appended are those of the requested byte range, cut at its ends, and the closing assertion on the offset holds |
| Multiwrite.SubFlat | qemu/util/iov.c:298-322 | the pieces of a byte range hold exactly the bytes of the range |
| Multiwrite.HeadAndTail | qemu/block.c:4611-4613 | a head and a later tail of a vector together have at most one piece more than the vector, which is why one extra entry is enough |
| Multiwrite.JoinedFlat | qemu/block.c:4620-4643 | the merged vector is the first request up to the second, the second, and the rest of the first, in at most niov1 + niov2 + 1 pieces |
| Multiwrite.JoinWrites | qemu/block.c:4620-4643 | for every byte of the disk, the merged request writes what the two requests write one after the other |
| Multiwrite.MergeVectors | qemu/block.c:4622-4640 | the three concatenations build the merged vector |
| Multiwrite.Merge | qemu/block.c:4591-4658 | for any sorted requests, what is left writes the same disk, stays sorted, is within IOV_MAX and max_transfer_length if the requests were, and a request stays apart from the one before exactly because of a gap or of a limit |
| Commit.Layers.CopyExtent | qemu/block.c:2304-2321 | an extent of either state and of any positive length is committed; a failure in the middle leaves the view through the top unchanged |
| Commit.Layers.DoCommit | qemu/block.c:2243-2348 | for a top shorter or longer than the backing file, with or without make_empty, and whichever call fails: a reader of the top image sees the same; it succeeds exactly if every call does, and then the backing file alone shows it; beyond the end of the top nothing changes |
| PageKeys.KeyInterval | qemu/exec.c:191-224 | pages with one key at a level are one aligned interval of that level's step |
| PageKeys.KeyOfInterval | qemu/exec.c:191-224 | and a page of that interval has that key |
| PhysPageTree.SlotRewritten | qemu/exec.c:205-222 | rewriting below one slot changes the walk exactly for the pages of that slot |
| PhysPageTree.SlotBecomesLeaf | qemu/exec.c:208-213 | turning a slot into a leaf assigns exactly the pages of its interval |
| PhysPageCompact.WalkSound | qemu/exec.c:298-312 | in a sound tree the level counter never runs out at a node, and a page that has a section reaches it |
| PhysPageCompact.BuiltIsSound | qemu/exec.c:191-234 | a tree made by the set operations is sound for what it maps |
| PhysPageCompact.TakeOver | qemu/exec.c:264-286 | an entry whose node has one used slot may take over that slot's content, although index bits are then ignored |
| PhysPageCompact.TakeOverDense | qemu/exec.c:268-288 | taking over the only slot leaves nothing to compact, and the levels always fit the bits of the skip field |
| PhysPageMap.ProgressRoom | qemu/exec.c:191-224 | with pages left, the nodes used so far and those the next slot can need stay below the bound of the call, which is at most 2 * level + 1 |
| PhysPageMap.PhysMap.NodeReserve | qemu/exec.c:167-174 | after it the requested number of nodes fits; it grows only if it must, and then to at least twice the size |
| PhysPageMap.PhysMap.NodeAlloc | qemu/exec.c:176-189 | exactly one node is added, of empty slots or, at the lowest level, of unassigned leaves |
| PhysPageMap.PhysMap.EnterNode | qemu/exec.c:196-202 | a missing node is added and changes what no page maps to |
| PhysPageMap.PhysMap.SetLevel | qemu/exec.c:191-224 | the pages of the range that the subtree serves get the section, all others keep theirs, nodes outside the subtree are untouched, and the allocation bound is kept |
| PhysPageMap.PhysMap.SetSlot | qemu/exec.c:207-222 | the same for one slot: a whole interval becomes a leaf, anything less goes one level down |
| PhysPageMap.PhysMap.Compact | qemu/exec.c:239-287 | the compacted entry is sound for the same pages, no node left below it has a single slot in use, and nodes outside are untouched |
| PhysPageMap.PhysMap.CompactSlot | qemu/exec.c:250-262 | compacting below one slot keeps its siblings sound |
| PhysPageMap.PhysMap.FindLeaf | qemu/exec.c:298-312 | the loop finds the entry of the walk, with the level counter never negative at a non-leaf |
| MemoryDispatch.AddPages | qemu/exec.c:1022-1032 | a section of whole free pages becomes the target of exactly its addresses, at the right region offsets |
| MemoryDispatch.AddToSubpage | qemu/exec.c:1013-1018 | a section inside a split page becomes the target of exactly its bytes |
| MemoryDispatch.AddNewSubpage | qemu/exec.c:1005-1018 | a section inside an unmapped page opens a subpage whose other bytes stay unassigned |
| MemoryDispatch.FreePage | qemu/exec.c:1004-1004 | a page whose bytes are all free is not in the page map |
| AddressSpace.FindExact | qemu/exec.c:298-320 | the range check makes a sound tree exact: compacted or not, an address gets the section of its page, or the unassigned one |
| AddressSpace.TranslateExact | qemu/exec.c:329-342 | with subpages resolved, an address gets the section piece that covers it and the offset into its region |
| AddressSpace.Dispatch.constructor | qemu/exec.c:2097-2121 | the empty dispatch table sends every address to the unassigned section |
| AddressSpace.Dispatch.PhysPageSet | qemu/exec.c:226-234 | exactly the pages of the range get the section, using at most 2 * P_L2_LEVELS - 1 of the reserved nodes, so the assertion of the allocator cannot fire |
| AddressSpace.Dispatch.SectionAdd | qemu/exec.c:951-967 | the number is the next one; the assertion fails only if the table already has as many sections as a page has bytes |
| AddressSpace.Dispatch.RegisterMultipage | qemu/exec.c:1022-1032 | a free section of whole pages becomes the target of its addresses and of no others |
| AddressSpace.Dispatch.PhysPageFind | qemu/exec.c:298-320 | the method finds the section that the specification of the tree gives |
| AddressSpace.Dispatch.SubpageRegister | qemu/exec.c:2023-2041 | exactly the bytes of the range are assigned; out of range it fails and changes nothing |
| AddressSpace.Dispatch.RegisterSubpage | qemu/exec.c:991-1019 | a free section inside one page becomes the target of its bytes, and the assertion on the existing section holds |
| AddressSpace.Dispatch.AddPiece | qemu/exec.c:1050-1063 | each turn registers a non-empty piece of what remains: all its whole pages at once and without splitting any, or the rest inside one page |
| AddressSpace.Dispatch.AddHead | qemu/exec.c:1041-1049 | the part before the first page boundary is registered, also in the last page of the address space |
| AddressSpace.HeadLength | qemu/exec.c:1041-1043 | the 64-bit arithmetic gives the distance to the next page boundary, wrap-around included |
| AddressSpace.Dispatch.MemAdd | qemu/exec.c:1034-1065 | a free section of any position and length becomes the target of exactly its addresses |
| AddressSpace.Dispatch.MemCommit | qemu/exec.c:2123-2140 | compaction keeps the section of every page and leaves no node with a single slot in use |
| AddressSpace.Dispatch.LookupRegion | qemu/exec.c:329-342 | the code's lookup gives the translation of the tables |
| AddressSpace.Rebuild | qemu/exec.c:1034-1065 | for every list of disjoint sections, each address translates to the section that contains it, at its offset, and to the unassigned section if none does; it stops early only when the section table is full |
| RamList.HitHolds | qemu/exec.c:817-832 | the wrap-around comparison holds exactly for the addresses of the block |
| RamList.GapIsFree | qemu/exec.c:1215-1229 | the space that a gap offers overlaps no block and does not pass the end of the address space |
| RamList.List.FindRamOffset | qemu/exec.c:1203-1237 | the offset is the end of a block followed by the smallest sufficient gap, the first such block in the list; it gives up exactly if there is no such gap |
| RamList.List.FindNext | qemu/exec.c:1220-1224 | the inner loop finds the smallest offset at or after the end of the block |
| RamList.List.Add | qemu/exec.c:1385-1436 | the new block goes before the first shorter one, at offset 0 of an empty list and otherwise at the end of the block with the smallest sufficient gap; blocks stay disjoint and sorted; it fails exactly when no gap is large enough |
| RamList.List.Free | qemu/exec.c:1606-1623 | the list without the block at that offset; if there was one the remembered block is forgotten and the version goes up, and otherwise nothing changes |
| RamList.List.GetRamBlock | qemu/exec.c:817-853 | for every address the answer with the remembered block is that of the list scan |
| RamList.GivesUp | qemu/exec.c:1203-1237 | a list reached by two additions and a removal, with half of the address space free below its block, on which the search for two bytes gives up |
| MigrationBitmap.FindNext | qemu/arch_init.c:457-462 | the first set bit of a range, or its end |
| MigrationBitmap.CountAll | qemu/arch_init.c:888-901 | with all bits set, gaps included, the set bits over pages in use are the pages of all blocks |
| MigrationBitmap.NewIsUsed | qemu/arch_init.c:493-502 | the bits a sync adds are all over pages in use if and only if no logged page outside every block is missing from the bitmap |
| DirtyPages.Tracker.constructor | qemu/arch_init.c:888-901 | every page is dirty and the counter is the number of pages in use |
| DirtyPages.Tracker.FindAndResetDirty | qemu/arch_init.c:446-468 | the bit of the page found is cleared and the counter stays exact, also for the bulk stage's clear without a look if that bit was set |
| DirtyPages.Tracker.SetDirty | qemu/arch_init.c:470-481 | the bit is set and counted once |
| DirtyPages.Tracker.SyncWords | qemu/arch_init.c:489-503 | the word path moves every logged page of its words into the bitmap and counts those that were not there |
| DirtyPages.Tracker.SyncPages | qemu/arch_init.c:504-515 | the page path does the same for its pages |
| DirtyPages.Tracker.SyncRange | qemu/arch_init.c:483-516 | both paths join the log into the bitmap over the block; the counter stays exact if and only if the words covered hold no stale logged page |
| DirtyPages.Tracker.Sync | qemu/arch_init.c:556-558 | afterwards every page in use that was in the bitmap or the log is in the bitmap, none is in the log, and the counter is exact if no stale page was logged |
| DirtyPages.CounterDrifts | qemu/arch_init.c:489-503 | a sync of a block beside a stale logged page, after which the counter is wrong |
| RamSearch.SearchOver | qemu/arch_init.c:722-726 | when the search comes round, every page in use is clean, or this is the lossy state and the page just cleared is the one lost |
| RamSearch.FoundNotLossy | qemu/arch_init.c:735-743 | a call that finds a page to send did not start in the lossy state |
| RamSearch.TurnInOrder | qemu/arch_init.c:457-462 | a search in the bulk stage takes the page next in order while there is one, and otherwise leaves the stage without taking one |
| RamSearch.RoundSoFar | qemu/arch_init.c:719-745 | when the search takes a page outside the bulk stage, every page that it passed since it began is clean, across the wrap-around too |
| PageCache.Cache.IsCached | qemu/page_cache.c:145-158 | a hit is reported exactly for a cached page and makes it used now; no cached content and no other age changes |
| PageCache.Cache.Insert | qemu/page_cache.c:160-190 | a present page is overwritten; otherwise the slot is taken, at the cost of what was there, or nothing changes; a page used within the lifetime stays, whatever else is inserted, and failure means that or no memory |
| Xbzrle.UlebRoundTrip | qemu/util/cutils.c:504-531 | a length decodes to itself whatever follows it |
| MachineWords.ZeroByteTest | qemu/migration/xbzrle.c:96-101 | the word test is true exactly if a byte of the word is zero |
| MachineWords.SharedByte | qemu/migration/xbzrle.c:97-100 | the test on the xor of two words of memory finds exactly that they share a byte |
| Xbzrle.ZeroRun | qemu/migration/xbzrle.c:43-64 | the word-wise loop finds the longest run of equal bytes |
| Xbzrle.NonZeroRun | qemu/migration/xbzrle.c:85-113 | the loop over words, with its test on their xor, finds the longest run of different bytes |
| Xbzrle.EncodeBuffer | qemu/migration/xbzrle.c:26-126 | the output is the encoding of the difference; -1 exactly if it does not fit, or ends with equal bytes and does not fit with two bytes to spare |
| Xbzrle.DecodeBuffer | qemu/migration/xbzrle.c:128-175 | in place, it applies exactly the encodings that are well formed and fit the page, and rejects all others |
| Xbzrle.ParseExact | qemu/migration/xbzrle.c:128-175 | the decoder accepts exactly the byte strings that spell, in ULEB128 of one or two bytes, a list of changes that lie on the page and of which no run but the first may be empty, and reads them as these changes |
| Xbzrle.RoundTrip | qemu/migration/xbzrle.c:26-175 | decoding the encoding over the old page gives the new page |
| Xbzrle.EmptyMeansSame | qemu/migration/xbzrle.c:66-69 | an empty encoding means that the pages are equal, and equal pages have an empty encoding |
| RamMigration.Source.constructor | qemu/arch_init.c:843-921 | the migration starts with every page dirty and nothing sent |
| RamMigration.Source.Emit | qemu/arch_init.c:331-345 | the record sent does to the destination's page what the sender says it does |
| RamMigration.Source.CacheZeroPage | qemu/arch_init.c:353-363 | outside the bulk stage a cached copy of a page sent as zero is replaced, and a page that had none gets one if there is room |
| RamMigration.Source.SaveDelta | qemu/arch_init.c:404-444 | 0 exactly for an unchanged page and -1 exactly if the delta has no room; otherwise exactly the delta is sent; the cache has what was sent, and does not change in the last stage |
| RamMigration.Source.SaveXbzrlePage | qemu/arch_init.c:382-444 | through miss, failed insertion, overflow and skip, the cache keeps equal to the destination's copy; a miss is cached unless its slot is in use or memory is short; in the last stage no content changes |
| RamMigration.Source.SavePage | qemu/arch_init.c:617-693 | afterwards the destination has what was read here and every cached page is its copy; a page read as zero goes as such, one with a cached copy as the delta to it, whole if that has no room, or not at all if it is unchanged, and any other whole |
| RamMigration.Source.TakePage | qemu/arch_init.c:735-743 | clearing a bit and saving its page loses nothing, and the continue flag is set only after a record of the same block |
| RamMigration.Source.SearchLoop | qemu/arch_init.c:717-745 | the search terminates, and stops either at a page sent or with no page in use dirty |
| RamMigration.Source.FindAndSaveBlock | qemu/arch_init.c:708-751 | it sends a page or finds none dirty; it loses a page if and only if it starts in the lossy state and the log does not hold the page; in the bulk stage it takes exactly the page next in order, and leaves the stage exactly if there is none; outside it the page sent is the next of the round: all pages passed are clean afterwards and all others have not changed; the counter stays exact |
| BulkStage.TracksSearch | qemu/arch_init.c:698-751 | a search in the bulk stage moves, clears and loses exactly as the stage computes it from the dirty and logged pages in use |
| BulkStage.LossNeedsWrite | qemu/arch_init.c:457-466 | only the last page of a last block with several pages can be lost, and only if the guest wrote it |
| MigrationRun.GuestWrite | qemu/include/exec/ram_addr.h:117-128 | a guest write goes to memory and to the log, nothing is lost, and a lost page that is written is no longer lost |
| MigrationRun.BitmapSync | qemu/arch_init.c:532-604 | a sync between sends keeps every promise about lost pages, cache and counter |
| MigrationRun.CacheResize | qemu/arch_init.c:199-231 | replacing the cache by an empty one keeps the cache coherent |
| MigrationRun.Step | qemu/arch_init.c:923-985 | each event keeps the invariant and does to the bulk stage, and to the page lost, what the stage says |
| MigrationRun.Run | qemu/arch_init.c:923-985 | over every run of writes, syncs, resizes and sends, a page in neither bitmap nor log is equal on both sides, except exactly the page that the bulk stage loses by these events |
| MigrationRun.LastStage | qemu/arch_init.c:996-1007 | the final loop terminates with no page in use dirty, and loses what one search of the bulk stage loses |
| MigrationRun.Complete | qemu/arch_init.c:988-1016 | with the guest stopped, the memories are equal on all pages in use not lost, and the counter is 0; what is lost is what a sync and one search lose |
| MigrationRun.Migrate | qemu/arch_init.c:843-1016 | from setup through any events to completion: replaying the stream gives the guest's final memory, except the page lost, which is the one computed from blocks and events, if any |
| MigrationRun.LosesPage | qemu/arch_init.c:457-466 | a run of two sends, one guest write and completion that loses a page |
| RamStream.RecordRead | qemu/arch_init.c:331-345 | the loader reads back page, kind and payload of a record, for its own block of the name sent, wherever that block is |
| RamStream.OtherWords | qemu/arch_init.c:1138-1228 | the word that ends a section and the one that begins the lengths are recognised by their flags, with CONTINUE or without, and by nothing else |
| RamStream.RecordSpelled | qemu/arch_init.c:1138-1228 | whatever is taken for a record is one: a word with one of the three flags, a name unless it continues, and the payload that the flag calls for, a delta with its mark and a length within the page |
| RamStream.SectionLoads | qemu/arch_init.c:1133-1228 | a section anywhere in the input loads to what its records say, and then both sides remember the same block |
| RamStream.SectionsLoad | qemu/arch_init.c:1133-1228 | however the records are cut into sections, loading all of them from any position does what the records say |
| RamStream.ReplayMirrors | qemu/arch_init.c:1073-1103 | records replayed on the destination's own blocks give each named block the pages that they give it on the source's, and change nothing else |
| RamStream.Arrives | qemu/arch_init.c:1116-1228 | at a destination whose blocks have the names and the room, in any order and at any place, each block of the source arrives in the block of its name, nothing else changes, and the remembered block is the source's last sent one |
| RamStream.Loader.GetBe | qemu/arch_init.c:1138-1138 | big-endian numbers, or failure at the end of the input |
| RamStream.Loader.HostFromStreamOffset | qemu/arch_init.c:1073-1103 | the remembered block, or the first one of that name that is long enough, or failure |
| RamStream.Loader.LoadXbzrle | qemu/arch_init.c:1035-1068 | wrong flag, over-long length, short input and undecodable data fail; otherwise the page is patched in place |
| RamStream.Loader.LoadContent | qemu/arch_init.c:1180-1212 | zero or filled page, whole page or delta, as the flag says |
| RamStream.Loader.RamResize | qemu/exec.c:1347-1383 | a fixed or too small block is refused, any other gets the length in whole pages; in every case the lengths stay within bounds |
| RamStream.Loader.LoadEntry | qemu/arch_init.c:1147-1176 | one name and length: an unknown name or a refused length fails, and the count of bytes left wraps as the source's does |
| RamStream.Loader.LoadLengths | qemu/arch_init.c:1143-1179 | the loop over names and lengths takes exactly the entries that the count asks for |
| RamStream.Loader.RamLoad | qemu/arch_init.c:1116-1234 | the loop loads exactly what the specification of a section says, lengths of blocks included, and fails exactly when it does; no length in use outgrows its block or changes where it is fixed |
| RamStream.LoadKeeps | qemu/exec.c:1347-1383 | whatever a section holds, if it loads then a block that must not be resized has kept its length, and every length that changed is of whole pages and within its block |
| RamStream.Loader.LoadAll | qemu/arch_init.c:1116-1234 | one call after another loads the sections of one input in turn |
| RamSetup.SetupLoads | qemu/arch_init.c:905-918 | the first section gives each block that the source named the source's length, and leaves the others alone |
| RamSetup.SetupLoadsExactly | qemu/arch_init.c:1143-1179 | the first section loads if and only if each block of the source has one of its name in the destination that is long enough, and that has the source's length already if it cannot be resized |
| RamSetup.ResizedIs | qemu/exec.c:1347-1383 | a whole number of pages is taken exactly if the block has that length, or may be resized and has room |
| RamSetup.UsedFromIs | qemu/arch_init.c:1143-1179 | each block named has the source's length in use, every other block its own |
| LiveMigration.StreamLoads | qemu/arch_init.c:905-1234 | the whole stream, lengths first, loads, to memory, lengths and unchanged rest |
| LiveMigration.MigrateAndLoad | qemu/arch_init.c:843-1234 | end to end: for all blocks, events and ways to cut the stream, loading its bytes succeeds, and then the destination's blocks hold the guest's final memory, except the page lost, if any; the rest of its memory is as before |
| DumpElf.FoundLoad | qemu/dump.c:389-425 | the offset and size found for an address describe bytes of the dumped memory that are the guest's bytes from there on, up to the end of the mapping, the block or the filter |
| DumpElf.GuestDumped | qemu/dump.c:382-408 | some block is dumped at an address if and only if the guest has memory there and the filter lets it through |
| DumpElf.PieceIs | qemu/dump.c:391-408 | the part of a block that the comparisons of the code select is exactly its bytes whose addresses the filter lets through, in order |
| DumpElf.ByteDumped | qemu/dump.c:602-628 | every byte of guest memory that the filter lets through is in the dump |
| DumpElf.Dump.GetStartBlock | qemu/dump.c:1399-1425 | the first block that the filter reaches; it finds none exactly if there is none, and then no address that the filter lets through is guest memory |
| DumpElf.Dump.Layout | qemu/dump.c:1536-1589 | memory_offset is the size of all headers and notes, with and without the section header, for any number of mappings; the counts fit their 16 and 32 bits, and the escape value stands exactly where the section header has the count |
| DumpElf.Dump.GetOffsetRange | qemu/dump.c:367-428 | for every block list, filter and mapping: the header's promise, and -1 exactly for addresses that are not guest memory or not let through |
| DumpElf.Dump.WriteElfLoads | qemu/dump.c:430-465 | one true header for each mapping, up to the limit, and their total size |
| DumpElf.Dump.DumpBegin | qemu/dump.c:468-570 | it writes exactly memory_offset bytes if the notes take note_size |
| DumpElf.Dump.WriteMemory | qemu/dump.c:343-364 | page by page and with a shorter last piece, exactly the bytes of the range |
| DumpElf.Dump.GetNextBlock | qemu/dump.c:575-600 | the next block that the filter reaches; those passed over hold nothing to dump |
| DumpElf.Dump.DumpIterate | qemu/dump.c:602-628 | the memory written is, block by block, the bytes that the filter lets through |
| DumpElf.Dump.CreateVmcore | qemu/dump.c:630-641 | it succeeds exactly if the filter reaches a block and every write succeeds; then the file has exactly the bytes that the filter lets through, and every program header written is true of it |
| KdumpFile.Output.WriteCache | qemu/dump.c:1105-1135 | nothing given to the buffer is lost or reordered, only what it held is written, and nothing while there is room |
| Kdump.GetNextPage | qemu/dump.c:999-1043 | the iterator returns every page of every block once, in ascending order, and then stops |
| Kdump.PackBits | qemu/dump.c:981-988 | bit p of the bitmap is bit p % 8 of byte p / 8 |
| KdumpBitmap.PackUpdate | qemu/dump.c:981-988 | changing a bit in its byte of the buffer is changing it in the bitmap |
| KdumpBitmap.LengthInChunks | qemu/dump.c:1511-1515 | a bitmap is exactly as long as the buffers written for it |
| KdumpBitmap.Bitmaps.SetDumpBitmap | qemu/dump.c:942-991 | all parts before the page's are in both copies, gaps as zeros, and one bit of the byte buffer changes in place |
| KdumpBitmap.Bitmaps.WriteDumpBitmap | qemu/dump.c:1045-1093 | in each copy a bit is set if and only if the page is in some block; nothing outside the two copies is written |
| KdumpPages.DescRoundTrip | qemu/dump.c:1209-1212 | a descriptor decodes to itself in either byte order |
| KdumpPages.PageWriter.PutOtherPage | qemu/dump.c:1232-1300 | the descriptor leads to the page, compressed exactly if that makes it smaller |
| KdumpPages.PageWriter.WriteDumpPages | qemu/dump.c:1172-1337 | through both buffers, the i-th descriptor leads to the i-th page; all zero pages share one; nothing before the descriptors changes |
| KdumpWhole.NoGap | qemu/dump.c:804-812 | the descriptors begin where the second bitmap ends |
| KdumpWhole.CreateKdump | qemu/dump.c:1339-1398 | it succeeds exactly if every write does; then headers, notes, bitmaps, descriptors and data of one file can all be read back: the areas do not overlap |
| KdumpWhole.WriteHeaders | qemu/dump.c:765-805 | header, sub-header and notes are in the file, each at its offset |
| SoftTlb.Widen | qemu/cputlb.c:238-240 | the loop terminates with the widest high mask under which the two addresses agree |
| SoftTlb.SlotsApart | qemu/cputlb.c:296-296 | two addresses have the same slot if and only if the low eight bits of their page numbers agree |
| SoftTlb.LargeInRegion | qemu/cputlb.c:97-97 | an address in a covered large page is in the flush region |
| SoftTlb.Widened | qemu/cputlb.c:237-243 | the widened region covers the new page and all it covered before |
| SoftTlb.StillTight | qemu/cputlb.c:237-243 | the widest mask under which region and new page agree gives the smallest region that covers both |
| SoftTlb.TightIsHull | qemu/cputlb.c:97-97 | an address is in that region if and only if it is in every region that covers all large pages |
| SoftTlb.OneLarge | qemu/cputlb.c:97-97 | with a single large page, these are exactly the addresses of the page |
| SoftTlb.Tlb.Flush | qemu/cputlb.c:51-70 | every entry of every mode is empty and no region is remembered |
| SoftTlb.Tlb.AddLargePage | qemu/cputlb.c:224-243 | the region is the smallest one that covers every large page added since the last full flush |
| SoftTlb.Tlb.FlushPage | qemu/cputlb.c:84-122 | no main or victim entry of any mode matches the page; the whole TLB goes if and only if the address is in every region that covers all large pages; otherwise no entry of another page goes |
| SoftTlb.Tlb.SetPage | qemu/cputlb.c:252-332 | the new entry is in its slot, the old one is the victim whose turn it is, each entry of the main table is in the slot of its page, and the exact condition for at most one entry of a page |
| SoftTlb.AtMostOneAfter | qemu/cputlb.c:294-316 | afterwards a page has at most one entry if and only if it had at most one without the victim overwritten, and none if the new entry is for it |
| SoftTlb.TwoEntries | qemu/cputlb.c:252-316 | a page set twice has an entry in its slot and one among the victims |
| SoftTlb.Tlb.VictimHit | qemu/softmmu_template.h:119-141 | it hits exactly when some victim has the page as its tag for this kind of access; then the last such victim and the entry of the slot change places; each page has at most one entry afterwards if and only if it had before |
| SoftTlb.Run | qemu/cputlb.c:51-332 | after any sequence of sets, victim hits and flushes, an entry for a page stems from a set that no later flush covers |
| Wakeup.NextOk | qemu/aio-posix.c:189-254 | one step of aio_poll keeps: from the moment dispatching is false, a due bottom half that the scan has passed has someone waking |
| Wakeup.Disturbed | qemu/async.c:119-151 | and so do the steps of schedulers, cancels and deletes |
| Wakeup.StepInv | qemu/async.c:44-180 | every step keeps the invariant, polls nested in any callback included, before and after the notifier is cleared |
| Wakeup.NoLostWakeup | qemu/async.c:258-277 | no run reaches a poller asleep without timeout and with a clear notifier while a bottom half is due, unless a scheduler is still on its way to notify |
| Wakeup.FlagExact | qemu/async.c:258-277 | in every run `dispatching` is off exactly outside aio_poll and from the start of a blocking poll to its wakeup, nested polls included; each poll leaves it as it found it |
| Wakeup.NoWriteWhileServing | qemu/async.c:270-277 | while the flag is on no one writes to the notifier, however much is scheduled |
| Wakeup.RunsExactly | qemu/async.c:63-87 | a callback is entered if and only if the walk finds the bottom half scheduled after reading it as not deleted, and then it is no longer scheduled |
| Wakeup.CallsBalance | qemu/async.c:63-140 | over every run, the times a bottom half gets scheduled are its calls, its cancellations and the one still to come, and no more |
| Wakeup.DeletedExactly | qemu/async.c:146-150 | a bottom half is deleted exactly if someone has deleted it |
| Wakeup.NotifyBalance | qemu/async.c:270-277 | over every run, each aio_notify reads the flag once and sets the notifier once if the flag was off, or is still to do so |
| Wakeup.NotifyWakes | qemu/async.c:270-277 | whoever is notifying while the poller sleeps for good wakes it |
| Wakeup.DeletedNotCalled | qemu/async.c:80-86 | once deleted, a bottom half that no poll is about to take is never called |
| Wakeup.SomeoneMoves | qemu/async.c:258-277 | while a bottom half is due, some owed step of the poller or of a scheduler can be made |
| Wakeup.StepCloser | qemu/async.c:63-87 | each owed step runs the bottom half or brings its run closer |
| Wakeup.RunsSoon | qemu/async.c:63-87 | every run of owed steps longer than that distance calls the bottom half |
| Wakeup.SleepsSoon | qemu/aio-posix.c:210-254 | no spinning: with nothing due and no one notifying, the polling thread makes at most a bounded number of steps, and can make one unless it sleeps without timeout and with a clear notifier |

## Left out

- Copy-on-read, zero-write detection and its flags, error injection between the reads of the block layer's cycle, and throttling.
- The order in which `qsort` leaves requests with equal sectors: merging starts from any sorted array.
- Completion callbacks of merged requests and their error codes.
- The length clamp of `address_space_translate_internal`, IOMMU chaining, and the wrap of a section past the end of the address space; sections of one rebuild are assumed disjoint and non-empty.
- RCU and locks around the dispatch table, the RAM list and the page cache: the model is of the data they protect.
- Allocation of host memory, file-backed blocks and resizing in the RAM list; `RamList.List.Add` models placing and inserting.
- Hot-plug of RAM during migration (`reset_ram_globals`), RDMA hooks, rate limits, throttling and statistics.
- Hook flags of the RAM stream, which only RDMA accepts, its version number, and what a resized block tells its owner.
- Memory of the destination after a load that failed: the model says only that it failed.
- RamMigration.Source.GuestRead: does not fix what a page in the dirty log reads as, because the guest may be writing it.
- Creation of page mappings by walking guest page tables, and their filtering, in the ELF dump: the mappings are an input.
- What the bytes of ELF, kdump and flat headers and of notes say, beyond the fields that place memory.
- Compressors: what they produce is open, except that the reader's function undoes it.
- `qemu_bh_schedule_idle`, several threads polling one context, timers other than as a bound on a sleep, and freeing of deleted bottom halves.
- TLB contents other than the three tags of an entry; `tlb_set_page` is modelled from the point where address, flags and protection are known.
- Memory ordering weaker than sequential consistency.
- Front ends, device models, other block drivers and the rest of QEMU.
