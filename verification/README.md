# A verified model of the ChCore kernel

This project models the data structures and multi-CPU protocols of ChCore, a small AArch64 teaching kernel, and proves
what they are for. `dafny verify dfyconfig.toml` checks everything.

| part | files | what is proved |
|---|---|---|
| lists | `wrappers.dfy`, `sequences.dfy`, `lists.dfy` | the intrusive circular list refines a sequence, alone and in families over one memory |
| page allocator | `pow2.dfy`, `buddy_model.dfy`, `buddy.dfy` | chunks tile the pool; merging is complete; an allocation fails only when no block fits; bytes are conserved; the free chunks depend on nothing but what is handed out |
| page table | `bits.dfy`, `page_table_model.dfy`, `page_table.dfy` | four levels of descriptors refine a flat map from pages to frames and permissions |
| capabilities | `bitmaps.dfy`, `slot_table.dfy`, `capability_model.dfy`, `capability.dfy`, `capability_laws.dfy`, `cap_tables.dfy`, `cap_system.dfy` | least-id allocation through the summary bitmap in every run, reference accounting, what each operation makes, complete revocation, bitmaps and slots in step with the capabilities through every run |
| locks | `ticket_lock.dfy`, `kernel_lock.dfy`, `barrier.dfy` | refinement of a FIFO queue over single memory accesses; balance of the big kernel lock; nobody waits for the lock for ever; nobody leaves the barrier early or waits in it for ever |
| scheduling and IPC | `sched_model.dfy`, `sched_laws.dfy`, `sched.dfy`, `ipc_chain.dfy`, `ipc_runs.dfy`, `ipc_laws.dfy`, `ipc_strays.dfy`, `ipc_limits.dfy`, `ipc_examples.dfy` | no thread is lost or in two places; who runs next, with which budget; bounded waiting; call chains unwind last in, first out; what breaks when a busy server is called |
| kernel heap | `slab_model.dfy`, `heap_model.dfy`, `slab.dfy` | live blocks never overlap and are large enough; a freed slot is the next to be taken; `kfree` finds the owner; slabs are taken only when needed; exactly when memory runs out |
| smaller parts | `radix_model.dfy`, `radix.dfy`, `cpio.dfy`, `print.dfy`, `cpio_print.dfy` | the radix tree refines a map; archives and numbers survive a round trip; the archive reader reads what the user library prints |

How the code is rendered:

- Code that updates memory step by step is a class or a method with the source's loops and recursion; its contract ties
  the new state to a function or relation on values, about which the lemmas speak. Structures that CPUs share without a
  lock (ticket lock, barrier) are transition systems with one step for each memory access, for any number of CPUs. One
  step merges two accesses: where a secondary CPU enters a round of the barrier it loads its own counter and stores the
  next value. No other CPU writes that counter, so nothing can come between the two.
- An intrusive list node is an object whose `record` is what `container_of` recovers. A `struct page` is its index in
  the metadata array, and its fields are parallel arrays. Nodes start linked to themselves rather than zeroed.
- A pointer is a number or an `Option`, an address a natural number. Memory that an operation gets from an allocator it
  cannot see is a parameter (a fresh name, or failure). `CapSystem.Kernel` sees the slot tables as a map from places to
  slots with their sizes; `cap_tables.dfy` ties that map to the bitmaps and arrays of `slot_table.dfy`.
- In `slot_table.dfy` a machine word is its 64 bits. In `page_table.dfy` it is a number with bit fields, laid out as in
  section D5.3 of Arm DDI 0487 (numbering of issue G.a).
- In `capability_model.dfy` a freed object is only marked, since `cap_free` still unlinks a slot after freeing its object.
- Chains of IPC calls, owners of pages, free lists and reference holders are ghost state.

Places where the code differs from what its comments or names promise, each with its exact condition and an input:

- `alloc_slot_id` looks at a word of the summary bitmap where a word of the bitmap is meant, and that word can lie beyond
  the end of the summary. The least unused id is found in every run all the same (`AlwaysLeast`), but the summary is right
  only by chance: `SummaryExactly`, `DocumentedExactly`; inputs `FullWordIsNotMarked`, `StrayWordBreaks`.
- `cap_copy` compares the allocator's result with -1, but the allocator reports -ENOMEM: `CapCopyKeepsExactly`; input
  `CopyIntoFullTable`. This takes a `kmalloc` that returns NULL. As the source stands `kmalloc` stops instead
  (`kernel/mm/slab.c:54-57`), or turns a NULL page into an address (`kernel/mm/kmalloc.c:58-59`), so the error exits of
  its callers come into play only once that is mended.
- `map_range_in_pgtbl` and `unmap_range_in_pgtbl` count pages from the length alone: `RangeCoversExactly`; input
  `TwoBytesMissAPage`.
- `is_locked` compares wrapping counters directly: `IsLockedExactly`; input `IsLockedWraps`.
- `sys_set_affinity` accepts numbers below -1, with which the scheduler drops the thread: `KeptExactly`; input
  `BadAffinityReached`, and `NeverRunsAgain`.
- A second call of an active connection overwrites for whom its server works: `CallSoundExactly`; input `BusyCallReached`, and `WaitsForever`.
- `hex8_u64` knows upper-case digits only: `HexExactly`; input `LowerCaseTen`.
- Padding a number with zeros on its right changes it: `ReadBackExactly`; input `FiveReadsAsFifty`.

## Model

| member | source | states |
|---|---|---|
| `Lists.ListAdd` | code/chcore-lab-2021/kernel/common/list.h:29-35 | inserting after any node of a circle gives the circle with the new node in the next place and every other node in its old order |
| `Lists.ListAppend` | code/chcore-lab-2021/kernel/common/list.h:37-41 | appending puts the node last, before the head comes round again |
| `Lists.ListDel` | code/chcore-lab-2021/kernel/common/list.h:43-47 | deleting takes exactly that node out of the circle |
| `Lists.ListEmpty` | code/chcore-lab-2021/kernel/common/list.h:49-52 | the answer is yes exactly for the circle that is only its head |
| `Lists.ListAddIn` | code/chcore-lab-2021/kernel/common/list.h:29-35 | adding to one of several lists over one memory leaves all other lists intact |
| `Lists.ListDelIn` | code/chcore-lab-2021/kernel/common/list.h:43-47 | deleting from one of several lists leaves all other lists intact |
| `Lists.InsertRemove` | code/chcore-lab-2021/kernel/common/list.h:29-47 | deleting a node that was just added, wherever it was added, restores the old order |
| `Buddy.Pool.constructor` | code/chcore-lab-2021/kernel/mm/buddy.c:13-48 | from any page-aligned start, initialisation reaches the full invariant (tiling, lists, counters, no two mergeable buddies) with nothing handed out |
| `Buddy.Pool.GetBuddyChunk` | code/chcore-lab-2021/kernel/mm/buddy.c:50-79 | the chunk whose address differs in the one bit of this size, or none outside the pool |
| `Buddy.BuddyAddress` | code/chcore-lab-2021/kernel/mm/buddy.c:67-69 | the XOR on absolute byte addresses is the inversion of one bit of the frame number |
| `BuddyModel.BuddyIsHead` | code/chcore-lab-2021/kernel/mm/buddy.c:50-79 | if the buddy of a chunk lies in the pool it is itself the head of a chunk no larger than this one, so its metadata is never a stale interior page |
| `BuddyModel.SplitKeeps` | code/chcore-lab-2021/kernel/mm/buddy.c:92-135 | cutting a free chunk keeps the tiling, keeps every page free or busy as it was, and creates no mergeable pair but its own halves |
| `BuddyModel.MergeKeeps` | code/chcore-lab-2021/kernel/mm/buddy.c:194-234 | merging two free buddies keeps the tiling, keeps every page free or busy, and leaves at most the merged chunk mergeable |
| `BuddyModel.MergeDone` | code/chcore-lab-2021/kernel/mm/buddy.c:198-208 | when merging stops, no two free buddies of one order are left |
| `Buddy.Pool.SplitPage` | code/chcore-lab-2021/kernel/mm/buddy.c:92-135 | the recursive split cuts a free chunk down to the wanted order at its low end, changes no page's use, and leaves other chunks alone |
| `Buddy.Pool.SplitOnce` | code/chcore-lab-2021/kernel/mm/buddy.c:114-133 | one cut: list, counters and metadata agree again, and only the two halves may be mergeable |
| `Buddy.Pool.MergePage` | code/chcore-lab-2021/kernel/mm/buddy.c:194-234 | the recursive merge ends in a pool where no two free buddies of one order exist, changes no page's use, and returns the free chunk that now contains the page's chunk |
| `Buddy.Pool.MergeOnce` | code/chcore-lab-2021/kernel/mm/buddy.c:211-227 | one merge: lists, counters and metadata agree again; the merged chunk is one order larger, contains the page and is first on its list |
| `Buddy.Pool.FindOrder` | code/chcore-lab-2021/kernel/mm/buddy.c:152-155 | the least order from the wanted one on whose list is not empty |
| `Buddy.Pool.GetPages` | code/chcore-lab-2021/kernel/mm/buddy.c:145-183 | returns nothing exactly when no aligned block of that many wholly free pages lies in the pool; otherwise one new chunk of the wanted order is handed out, from the first chunk of the least sufficient list, and all others stay handed out |
| `Buddy.Pool.FreePages` | code/chcore-lab-2021/kernel/mm/buddy.c:243-253 | gives back exactly that chunk and restores the full invariant; what it is merged into is first on its list |
| `Buddy.Pool.GetFreeMemSize` | code/chcore-lab-2021/kernel/mm/buddy.c:274-292 | the total is the page size times the number of free pages, and with the bytes handed out makes up the pool |
| `BuddyModel.NoChunkNoBlock` | code/chcore-lab-2021/kernel/mm/buddy.c:152-170 | if every list from an order on is empty, no aligned block of that order is wholly free (completeness of the allocator) |
| `BuddyModel.ChunkIsBlock` | code/chcore-lab-2021/kernel/mm/buddy.c:152-180 | a free chunk of sufficient order contains such a block |
| `BuddyModel.FreeChunksAreMaximalBlocks` | code/chcore-lab-2021/kernel/mm/buddy.c:194-253 | in a coalesced pool the free chunks are exactly the aligned blocks of free pages that lie in no larger one |
| `BuddyModel.Canonical` | code/chcore-lab-2021/kernel/mm/buddy.c:243-253 | two coalesced pools with the same chunks handed out have the same free chunks, whatever happened before; so once everything is given back the pool is as after initialisation |
| `BuddyModel.LiveDecidesPages` | code/chcore-lab-2021/kernel/mm/buddy.c:243-253 | which pages are free is decided by the chunks handed out alone |
| `BuddyModel.CoveredSize` | code/chcore-lab-2021/kernel/mm/buddy.c:274-292 | the free chunks of one order cover that many times the chunk size pages |
| `BuddyModel.Conservation` | code/chcore-lab-2021/kernel/mm/buddy.c:274-292 | free pages and pages handed out add up to the pool |
| `BuddyModel.TakeChunk` | code/chcore-lab-2021/kernel/mm/buddy.c:159-180 | marking a free chunk in use hands out that chunk and no other |
| `BuddyModel.TakeBlock` | code/chcore-lab-2021/kernel/mm/buddy.c:159-180 | handing out a free block takes exactly that one from the aligned free blocks of its order |
| `BuddyModel.GiveChunk` | code/chcore-lab-2021/kernel/mm/buddy.c:246-249 | clearing the mark gives back that chunk and no other |
| `Pow2.AlignedDivides` | code/chcore-lab-2021/kernel/mm/buddy.c:59-69 | an address whose low bits are 0, as a chunk head has them, is a multiple of the chunk size, and the other way round |
| `Pow2.XorPow` | code/chcore-lab-2021/kernel/mm/buddy.c:67-69 | XOR with a power of two inverts exactly that bit |
| `Bits.GetSet` | code/chcore-lab-2021/kernel/mm/page_table.h:76-121 | a bit field reads back what was stored in it |
| `Bits.GetOther` | code/chcore-lab-2021/kernel/mm/page_table.h:76-121 | storing a bit field changes no disjoint field |
| `PageTable.IndexOfPage` | code/chcore-lab-2021/kernel/mm/page_table.h:48-57 | the four indices taken from an address are the base-512 digits of its page number |
| `PageTable.FlagFields` | code/chcore-lab-2021/kernel/mm/page_table.c:43-66 | the flag stores open the page to EL0, writable exactly with VMR_WRITE and executable exactly with VMR_EXEC, set the other fields to their values, and keep valid and table bits |
| `PageTable.LeafWordFields` | code/chcore-lab-2021/kernel/mm/page_table.c:249-250 | whatever valid entry it starts from, mapping leaves a user page of the frame asked for, which EL0 may write exactly with VMR_WRITE and execute exactly with VMR_EXEC |
| `PageTable.Translation.GetNextPtp` | code/chcore-lab-2021/kernel/mm/page_table.c:87-145 | reports the entry and next table; on request links a zeroed new table, at the last level too, or stops if there is no free page; otherwise changes nothing |
| `PageTable.Translation.TableFor` | code/chcore-lab-2021/kernel/mm/page_table.c:234-244 | going down and allocating tables on the way changes no translation, and stops only with fewer than three free pages |
| `PageTable.Translation.LeafEntry` | code/chcore-lab-2021/kernel/mm/page_table.c:246-248 | the throw-away page allocated at the last level changes no translation but that of the entry about to be written |
| `PageTable.Translation.MapPage` | code/chcore-lab-2021/kernel/mm/page_table.c:246-250 | maps this page to this frame with these permissions and changes no other page |
| `PageTable.Translation.UnmapPage` | code/chcore-lab-2021/kernel/mm/page_table.c:291-294 | this page translates no more, mapped before or not, and no other page changes |
| `PageTable.Translation.MapRange` | code/chcore-lab-2021/kernel/mm/page_table.c:224-255 | every page processed translates to its frame with the permissions asked for, the last one winning, and every other page translates as before; all are processed with four free pages for each, and where it stops for want of pages those before are mapped |
| `PageTable.Translation.UnmapRange` | code/chcore-lab-2021/kernel/mm/page_table.c:270-300 | exactly the pages processed stop translating; all are processed with four free pages for each |
| `PageTable.Translation.Query` | code/chcore-lab-2021/kernel/mm/page_table.c:162-207 | the answer of the flat map: address and descriptor, or the error exactly for pages it does not translate |
| `PageTable.MapThenQuery` | code/chcore-lab-2021/kernel/mm/page_table.c:162-255 | after a range was mapped, querying byte d of it answers physical byte d, if and only if both ranges start at the same offset in their pages |
| `PageTable.RangeCoversExactly` | code/chcore-lab-2021/kernel/mm/page_table.c:230 | the pages processed are those the byte range meets if and only if the offset of its start does not push it over one page boundary more than its length |
| `PageTable.TwoBytesMissAPage` | code/chcore-lab-2021/kernel/mm/page_table.c:230 | an example: of two bytes from address 0xFFF on the second lies in a page that is not processed |
| `PageTable.HitsAreConsecutive` | code/chcore-lab-2021/kernel/mm/page_table.c:230-232 | the pages processed are consecutive from the page of the start address |
| `PageTable.PageNumber` | code/chcore-lab-2021/kernel/mm/page_table.h:54-57 | below 2^48 the page number is the address divided by the page size |
| `PageTableModel.WalkIsLeaf` | code/chcore-lab-2021/kernel/mm/page_table.c:171-200 | the walk from any level finds what the tree of tables holds for the page |
| `PageTableModel.LinkTable` | code/chcore-lab-2021/kernel/mm/page_table.c:117-137 | a new empty table changes no translation and keeps the tables a tree without shared pages |
| `PageTableModel.StoreLeaf` | code/chcore-lab-2021/kernel/mm/page_table.c:249-250 | a store to a last-level entry changes the translation of its own page only |
| `PageTableModel.StoreElsewhere` | code/chcore-lab-2021/kernel/mm/page_table.c:123-126 | the contents of a page that is no table matter to no translation |
| `CapSystem.Kernel.ObjAlloc` | code/chcore-lab-2021/kernel/process/capability.c:86-104 | a new object without references or slots, nothing else changed; without memory nothing changes |
| `CapSystem.Kernel.CapAlloc` | code/chcore-lab-2021/kernel/process/capability.c:141-177 | on success the first slot, under the least unused id of the process, at the head of the object's list; without an id nothing changes, and without memory for the slot the id is given back |
| `CapSystem.Kernel.CapFree` | code/chcore-lab-2021/kernel/process/capability.c:179-214 | takes the slot out of table and list and drops one reference; the object is freed with the last; the error case changes nothing |
| `CapSystem.Kernel.CapCopy` | code/chcore-lab-2021/kernel/process/capability.c:216-256 | a new slot right after the old one under the least unused id, one more reference, rights kept unless new ones are given; the error exits, the one that gives back an id that was none included |
| `CapSystem.Kernel.CapMove` | code/chcore-lab-2021/kernel/process/capability.c:267-280 | a copy and, if that returned an id, the end of the source slot; otherwise the error of the copy |
| `CapSystem.Kernel.ObjGet` | code/chcore-lab-2021/kernel/process/capability.c:26-54 | one more reference to the object, if the slot exists and the type fits |
| `CapSystem.Kernel.ObjPut` | code/chcore-lab-2021/kernel/process/capability.c:66-72 | one reference less, freeing the object with the last |
| `CapSystem.Kernel.ObjFree` | code/chcore-lab-2021/kernel/process/capability.c:114-139 | the loop over the list, which looks ahead before it frees, frees every slot of the object |
| `CapSystem.Kernel.CapRevoke` | code/chcore-lab-2021/kernel/process/capability.c:282-295 | revocation by a temporary reference; the invariant is kept; the error case changes nothing |
| `Capability.RevokeComplete` | code/chcore-lab-2021/kernel/process/capability.c:282-295 | no slot of the object is left in any process, every other slot is where and what it was, and the object is freed exactly if nobody else holds a reference |
| `Capability.FreeAllClears` | code/chcore-lab-2021/kernel/process/capability.c:130-138 | freeing the listed slots one by one removes exactly the slots of that object |
| `Capability.Accounting` | code/chcore-lab-2021/kernel/process/capability.c:141-295 | the reference count is the number of slots for the object in all processes plus the references held, and its list is exactly those slots |
| `Capability.CapCopyKeepsExactly` | code/chcore-lab-2021/kernel/process/capability.c:228-254 | copying keeps the invariant exactly if there is no such capability, or the destination table has an unused id or can be expanded; otherwise the out-of-memory code, which this function does not recognise, is used as an id, by the copy or by its error exit |
| `Capability.CapMoveKeepsExactly` | code/chcore-lab-2021/kernel/process/capability.c:267-280 | moving keeps the invariant under exactly that condition |
| `Capability.CopyIntoFullTable` | code/chcore-lab-2021/kernel/process/capability.c:228-254 | an example: in a full table without memory to expand it, the copy is stored under id -3, and giving up the copy writes beside the table |
| `Capability.FreeUndoesCopy` | code/chcore-lab-2021/kernel/process/capability.c:179-256 | freeing a fresh copy restores the whole state, lists and counts included, but for the size of a table that was expanded |
| `Capability.MoveTransfers` | code/chcore-lab-2021/kernel/process/capability.c:267-280 | moving keeps the object's reference count and replaces one slot by another, changing nothing else |
| `Capability.StepKeeps` | code/chcore-lab-2021/kernel/process/capability.c:26-295 | every operation, moves and the freeing of objects included, keeps the invariant |
| `Capability.After` | code/chcore-lab-2021/kernel/process/capability.c:26-295 | the invariant holds after every run of operations |
| `CapabilityModel.LinkKeeps` | code/chcore-lab-2021/kernel/process/capability.c:160-170 | a new slot keeps the invariant exactly if its place is one in the slot table |
| `CapabilityModel.UnlinkKeeps` | code/chcore-lab-2021/kernel/process/capability.c:193-209 | taking a slot away keeps the invariant, with the object freed exactly at the last reference |
| `CapabilityModel.AllocIdOk` | code/chcore-lab-2021/kernel/process/process.c:97-136 | there is an id exactly if one is unused or the table can be expanded; it is not in use and lies in the table, and otherwise nothing changes |
| `CapabilityLaws.AllocMakes` | code/chcore-lab-2021/kernel/process/capability.c:141-171 | a new capability: the least unused id, the rights given, this object, first on its list; one more reference, nothing else changed |
| `CapabilityLaws.CopyMakes` | code/chcore-lab-2021/kernel/process/capability.c:216-251 | a copy: the least unused id, the new rights if any are given and the rights of the source otherwise, the same object, right behind the source on its list; one more reference, nothing else changed |
| `CapabilityLaws.MoveMakes` | code/chcore-lab-2021/kernel/process/capability.c:267-280 | a move: the source is replaced by such a slot, at its place on the list, with as many references as before |
| `CapabilityLaws.FreeMakes` | code/chcore-lab-2021/kernel/process/capability.c:179-214 | freeing takes exactly the slot at that id out of table and list, with one reference, and frees the object with the last; without such a slot nothing changes |
| `CapabilityLaws.FindExactly` | code/chcore-lab-2021/kernel/process/process.h:72-77 | an id leads to a slot exactly if that slot is in use and has this place |
| `CapabilityLaws.AllocFails` | code/chcore-lab-2021/kernel/process/capability.c:149-176 | without an id or memory for the slot nothing is made |
| `CapabilityLaws.CopyFails` | code/chcore-lab-2021/kernel/process/capability.c:222-255 | without a source or memory for the slot nothing is made, and which error is reported |
| `CapabilityLaws.GotExactly` | code/chcore-lab-2021/kernel/process/capability.c:26-54 | an id gives access to the object of its slot, unless another type is asked for; without a slot there is none |
| `CapabilityLaws.GetMakes` | code/chcore-lab-2021/kernel/process/capability.c:45-48 | and then takes one reference, and nothing else |
| `CapabilityLaws.PutUndoesGet` | code/chcore-lab-2021/kernel/process/capability.c:56-78 | giving back a reference just taken restores the whole state |
| `CapabilityLaws.PutFreesLast` | code/chcore-lab-2021/kernel/process/capability.c:66-72 | giving back a reference frees the object exactly if no slot is left and this was the last one held |
| `CapabilityLaws.ObjFreeMakes` | code/chcore-lab-2021/kernel/process/capability.c:114-139 | freeing an object takes every slot for it away, and frees it exactly if nobody holds a reference |
| `CapabilityLaws.NewIsTyped` | code/chcore-lab-2021/kernel/process/capability.c:86-177 | a capability for a new object gives access to it under the type it was allocated with, and under no other |
| `CapTables.IdAnswer` | code/chcore-lab-2021/kernel/process/process.c:97-136 | what alloc_slot_id answers from its bitmaps is the id that the capability operations work with |
| `CapTables.InitJoint` | code/chcore-lab-2021/kernel/process/process.c:138-146 | the empty slot table of a new process agrees with its capabilities |
| `CapTables.LinkJoint` | code/chcore-lab-2021/kernel/process/capability.c:149-170 | allocating an id and installing a slot keeps all slot tables, bitmaps included, in agreement with the capabilities |
| `CapTables.UnusedJoint` | code/chcore-lab-2021/kernel/process/capability.c:155-159 | so does giving back the id for which no slot could be allocated |
| `CapTables.UnlinkJoint` | code/chcore-lab-2021/kernel/process/capability.c:193-209 | so does giving back the id of a slot that is freed |
| `CapTables.FreeAllJoint` | code/chcore-lab-2021/kernel/process/capability.c:130-138 | so does freeing all slots of an object, in whatever processes |
| `CapTables.CopyJoint` | code/chcore-lab-2021/kernel/process/capability.c:228-251 | so does a whole cap_copy |
| `CapTables.RevokeJoint` | code/chcore-lab-2021/kernel/process/capability.c:282-295 | so does a whole cap_revoke |
| `CapTables.OpJoint` | code/chcore-lab-2021/kernel/process/capability.c:26-295 | so does every operation, whether it succeeds or fails, through all that it calls of the slot tables |
| `CapTables.RunJoint` | code/chcore-lab-2021/kernel/process/capability.c:26-295 | so after every run of operations all slot tables, bitmaps included, agree with the capabilities |
| `Bitmaps.FindNextBitHelper` | code/chcore-lab-2021/kernel/common/bitops.h:55-81 | the first bit from the start on with the wanted value, or the size if there is none |
| `Bitmaps.SetBit` | code/chcore-lab-2021/kernel/common/bitops.h:26-31 | sets that bit and no other |
| `Bitmaps.ClearBit` | code/chcore-lab-2021/kernel/common/bitops.h:42-47 | clears that bit and no other |
| `Bitmaps.GetBit` | code/chcore-lab-2021/kernel/common/bitops.h:34-39 | reads that bit |
| `SlotTables.SlotTable.constructor` | code/chcore-lab-2021/kernel/process/process.c:39-62 | the size is rounded up to whole words, with empty slots and zero bitmaps |
| `SlotTables.SlotTableInit` | code/chcore-lab-2021/kernel/process/process.c:35-69 | a table exactly if each of its three allocations gets its memory |
| `SlotTables.SlotTable.Expand` | code/chcore-lab-2021/kernel/process/process.c:71-95 | 64 more slots; every id and every slot pointer is kept; if one of the three allocations fails nothing changes |
| `SlotTables.SlotTable.FindFreeId` | code/chcore-lab-2021/kernel/process/process.c:106-118 | the search through the summary finds the least id not in use, or that all are in use |
| `SlotTables.SlotTable.AllocSlotId` | code/chcore-lab-2021/kernel/process/process.c:97-136 | allocates the least id not in use, expanding at most once; fails exactly if all ids are in use and there is no memory, changing nothing; says exactly when a summary bit is set, and keeps the first one 0 |
| `SlotTables.SlotTable.FreeSlotId` | code/chcore-lab-2021/kernel/process/process.h:64-70 | frees that id, its slot and its summary bit, and nothing else |
| `SlotTables.SlotTable.GetSlot` | code/chcore-lab-2021/kernel/process/process.h:72-77 | the slot, or none outside the table |
| `SlotTables.SlotTable.InstallSlot` | code/chcore-lab-2021/kernel/process/process.h:79-84 | stores that slot pointer only |
| `SlotTables.FirstBitClear` | code/chcore-lab-2021/kernel/process/process.c:106-131 | in every run, whatever stray words are read, the first bit of the summary is 0 |
| `SlotTables.AnswerExactly` | code/chcore-lab-2021/kernel/process/process.c:106-126 | the search of the summary, the search of the bitmap from the word found, and both once more in an expanded table: while the first summary bit is 0 they answer the least id not in use, and no other |
| `SlotTables.AlwaysLeast` | code/chcore-lab-2021/kernel/process/process.c:97-136 | so in every run, whatever the summary says and whatever stray words are read, the searches of every allocation answer the least id not in use |
| `SlotTables.AllocatedSteps` | code/chcore-lab-2021/kernel/process/process.c:97-136 | what alloc_slot_id does, as its method states it, is an allocation step of these runs |
| `SlotTables.MarkedExactly` | code/chcore-lab-2021/kernel/process/process.c:128-131 | in every run a summary bit is set exactly if an allocation in its word read all ones and no id of the word was freed since |
| `SlotTables.NeverMarked` | code/chcore-lab-2021/kernel/process/process.c:128-131 | in every run that reads no stray word of ones, no summary bit is ever set, because the summary instead of the bitmap is looked at |
| `SlotTables.SummaryExactly` | code/chcore-lab-2021/kernel/process/process.c:128-131 | in every run the summary is right exactly if the words used up are those so marked; in runs that read no stray word of ones, exactly while no word is used up |
| `SlotTables.ExactStep` | code/chcore-lab-2021/kernel/process/process.c:128-131 | one allocation keeps an exact summary exact if and only if it marks its word exactly when that word is now used up; a word that an expansion adds must not be marked |
| `SlotTables.FullWordIsNotMarked` | code/chcore-lab-2021/kernel/process/process.c:128-131 | an example: the 64th allocation uses up a word whose summary bit stays 0 |
| `SlotTables.DocumentedExactly` | code/chcore-lab-2021/kernel/process/process.h:41-45 | an allocation keeps the documented promise of the summary exactly if it did not mark the word, or used it up |
| `SlotTables.StrayWordBreaks` | code/chcore-lab-2021/kernel/process/process.c:129-131 | an example: a word of ones read beyond the end of the summary marks a word that is not used up |
| `SlotTables.ReleaseDocumented` | code/chcore-lab-2021/kernel/process/process.h:64-70 | freeing keeps the documented promise |
| `SlotTables.FreeUndoesAlloc` | code/chcore-lab-2021/kernel/process/process.c:97-136 | after an allocation is undone by freeing its id, the same ids are in use and the searches of the next allocation answer that id and no other, whatever stray word was read in between |
| `TicketLock.StepRefines` | code/chcore-lab-2021/kernel/common/lock.c:36-106 | every single step of lock, try_lock and unlock on any CPU is a step of a FIFO queue or leaves it unchanged |
| `TicketLock.RunRefines` | code/chcore-lab-2021/kernel/common/lock.c:36-106 | so every interleaving refines the queue |
| `TicketLock.JoinRefines` | code/chcore-lab-2021/kernel/common/lock.c:48-52 | a store-exclusive that succeeds puts the CPU at the end of the queue with a ticket of its own |
| `TicketLock.CompareRefines` | code/chcore-lab-2021/kernel/common/lock.c:71-79 | the comparison in try_lock leaves the queue as it is, and where it came out equal with the monitor still set the queue is empty |
| `TicketLock.CompareExactly` | code/chcore-lab-2021/kernel/common/lock.c:71-77 | in every reachable state, with the monitor of the CPU still set, the comparison in try_lock comes out equal exactly if the lock is free |
| `TicketLock.TryLockAlone` | code/chcore-lab-2021/kernel/common/lock.c:64-90 | undisturbed, try_lock takes a free lock and the CPU is alone in the queue; on a taken lock it gives up and changes nothing but its own monitor |
| `TicketLock.LockAlone` | code/chcore-lab-2021/kernel/common/lock.c:36-60 | undisturbed, lock takes the next ticket, last in the queue, and gets in at once if the lock was free |
| `TicketLock.LockPersists` | code/chcore-lab-2021/kernel/common/lock.c:48-55 | lock never returns without the lock, in any interleaving |
| `TicketLock.TryEnds` | code/chcore-lab-2021/kernel/common/lock.c:64-90 | try_lock never waits: whatever is interleaved, within two more steps of its own after the load the CPU has had the lock or is outside again |
| `TicketLock.AlwaysAStep` | code/chcore-lab-2021/kernel/common/lock.c:36-106 | every CPU always has a next step; it can store to next while its monitor is set, which may go at any time |
| `TicketLock.LeaveRefines` | code/chcore-lab-2021/kernel/common/lock.c:95-106 | a release removes the first of the queue and serves the next ticket |
| `TicketLock.MutualExclusion` | code/chcore-lab-2021/kernel/common/lock.c:36-106 | at most one CPU holds the lock in every reachable state, with fewer than 2^32 CPUs and wrapping counters |
| `TicketLock.OutstandingTickets` | code/chcore-lab-2021/kernel/common/lock.c:36-106 | the outstanding tickets are exactly owner to next - 1 around the circle, one for each CPU, none twice |
| `TicketLock.FirstComeFirstServed` | code/chcore-lab-2021/kernel/common/lock.c:48-55 | a CPU with ticket t gets in after exactly t - owner further releases |
| `TicketLock.EveryoneGetsIn` | code/chcore-lab-2021/kernel/common/lock.c:36-106 | nobody waits for ever: in every interleaving a CPU that waits with ticket t gets in within 3 * (t - owner) + 1 sweeps in which every CPU steps |
| `TicketLock.IsLockedExactly` | code/chcore-lab-2021/kernel/common/lock.c:114-117 | is_locked is right if and only if the counters have not wrapped between each other |
| `TicketLock.IsLockedWraps` | code/chcore-lab-2021/kernel/common/lock.c:114-117 | an example: after 2^32 - 1 rounds by one CPU and one more lock, owner is 2^32 - 1 and next is 0, so the lock taken looks free |
| `KernelLock.AcquiresExactly` | code/chcore-lab-2021/kernel/exception/exception_table.S:156-257 | the entries that take the lock are exactly those from EL0 and interrupts of an idle thread |
| `KernelLock.StepBalanced` | code/chcore-lab-2021/kernel/exception/exception_table.S:95-98 | each entry, lock step and exit keeps every CPU's place in the kernel in agreement with the lock |
| `KernelLock.EntryGetsIn` | code/chcore-lab-2021/kernel/exception/exception_table.S:95-98 | an entry that locks, undisturbed and with the lock free, leads into the kernel |
| `KernelLock.ReturnLeaves` | code/chcore-lab-2021/kernel/exception/exception_table.S:95-98 | a return drops the lock to the next in the queue and leads out of the kernel |
| `KernelLock.OneCpuInKernel` | code/chcore-lab-2021/kernel/exception/exception_table.S:95-98 | at most one CPU is inside the kernel at a time, and it is first in the lock's queue |
| `KernelLock.Accounting` | code/chcore-lab-2021/kernel/exception/exception_table.S:177-225 | in every run each entry acquires once and each exit releases once |
| `KernelLock.LockBalance` | code/chcore-lab-2021/kernel/exception/exception_table.S:95-98 | from boot on, a CPU holds the lock exactly from an entry to the matching return: acquisitions less releases is 1 inside the kernel and 0 outside, for every CPU |
| `Barrier.StepInv` | code/chcore-lab-2021/kernel/tests/barrier.c:41-68 | every step of every CPU keeps the invariant that ties counters and program places together |
| `Barrier.NobodyLeavesEarly` | code/chcore-lab-2021/kernel/tests/barrier.c:41-68 | no CPU leaves a round before every CPU has entered it, in any interleaving and round |
| `Barrier.CountersLevel` | code/chcore-lab-2021/kernel/tests/barrier.c:41-68 | the counters of two CPUs never differ by more than one |
| `Barrier.NoMissedValue` | code/chcore-lab-2021/kernel/tests/barrier.c:53-66 | a spinning CPU reads the value before the one it waits for or that value, never a later one |
| `Barrier.RoundEnds` | code/chcore-lab-2021/kernel/tests/barrier.c:41-68 | from any state the primary CPU ends its round within n + 4 sweeps in which every CPU steps |
| `Barrier.EveryoneLeaves` | code/chcore-lab-2021/kernel/tests/barrier.c:41-68 | every CPU inside a round leaves it within n + 5 such sweeps, from every reachable state: nobody waits for ever |
| `Sched.Scheduler.RrEnqueue` | code/chcore-lab-2021/kernel/sched/policy_rr.c:52-82 | enqueues as EnqueuePlaces says, and reports success exactly for threads that are not ready and are idle or have an affinity from -1 to 3 |
| `Sched.Scheduler.RrDequeue` | code/chcore-lab-2021/kernel/sched/policy_rr.c:90-107 | takes a ready thread off its queue; otherwise reports an error and changes nothing |
| `Sched.Scheduler.RrChooseThread` | code/chcore-lab-2021/kernel/sched/policy_rr.c:120-141 | the head of the queue or the idle thread; with the invariant the NULL result is unreachable |
| `Sched.Scheduler.SwitchToThread` | code/chcore-lab-2021/kernel/sched/sched.c:91-103 | the target runs on this CPU, nothing else changes |
| `Sched.Scheduler.RrSched` | code/chcore-lab-2021/kernel/sched/policy_rr.c:160-189 | keeps the current thread while it has budget, otherwise requeues it and dispatches the chosen thread with a full budget; always succeeds and keeps the invariant |
| `Sched.Scheduler.HandleIrq` | code/chcore-lab-2021/kernel/exception/irq.c:35-57 | an interrupt ticks, a timer interrupt twice, and reschedules; the invariant is kept |
| `Sched.Scheduler.SysYield` | code/chcore-lab-2021/kernel/sched/sched.c:149-155 | gives up the budget and reschedules; the invariant is kept |
| `Sched.DequeueTakes` | code/chcore-lab-2021/kernel/sched/policy_rr.c:90-107 | dequeueing takes the thread out of its place in its queue, and no other |
| `Sched.DequeueKeeps` | code/chcore-lab-2021/kernel/sched/policy_rr.c:90-107 | dequeueing keeps the invariant and leaves the thread without a place |
| `Sched.DequeueUndoesEnqueue` | code/chcore-lab-2021/kernel/sched/policy_rr.c:52-107 | dequeueing right after enqueueing restores the queues |
| `SchedModel.EnqueuePlaces` | code/chcore-lab-2021/kernel/sched/policy_rr.c:52-82 | with affinity 0 to 3 the thread goes last on the queue of that CPU, with affinity -1 on that of this CPU, ready and marked for it; no other queue or thread changes; idle and ready threads and other affinities are not enqueued |
| `SchedModel.EnqueueKeeps` | code/chcore-lab-2021/kernel/sched/policy_rr.c:52-82 | enqueueing the current thread of a CPU keeps the invariant for all other CPUs |
| `SchedModel.ChooseKeeps` | code/chcore-lab-2021/kernel/sched/policy_rr.c:120-141 | choosing keeps the invariant, and the chosen thread is current on no other CPU |
| `SchedLaws.PlacedOnce` | code/chcore-lab-2021/kernel/sched/policy_rr.c:52-189 | a thread is ready if and only if it is in a ready queue; it is in one only, of its own CPU; no thread is current twice, or current and queued; idle threads are never queued |
| `SchedLaws.RescheduleKeeps` | code/chcore-lab-2021/kernel/sched/policy_rr.c:160-189 | rescheduling keeps the invariant: there is always a thread to switch to |
| `SchedLaws.RescheduleConserves` | code/chcore-lab-2021/kernel/sched/policy_rr.c:160-189 | rescheduling loses no thread's place and creates none |
| `SchedLaws.RequeueQueues` | code/chcore-lab-2021/kernel/sched/policy_rr.c:174-177 | requeueing adds the current thread, unless it is idle, at the end of the queue that its affinity names, or of that of its CPU, and changes no other queue |
| `SchedLaws.RescheduleAdvances` | code/chcore-lab-2021/kernel/sched/policy_rr.c:160-189 | the thread at place p of a queue moves to place p - 1, or onto the CPU, when that CPU reschedules, and stays when another does |
| `SchedLaws.SchedExactly` | code/chcore-lab-2021/kernel/sched/policy_rr.c:160-177 | a thread with budget left stays when the scheduler is called; otherwise the CPU is handed over |
| `SchedLaws.RescheduleDispatches` | code/chcore-lab-2021/kernel/sched/policy_rr.c:160-189 | to the head of its queue, or else to the thread that just came back to it, or else to the idle thread, running on this CPU with a budget of two ticks; no other budget changes |
| `SchedLaws.InterruptCosts` | code/chcore-lab-2021/kernel/sched/policy_rr.c:229-235 | a device interrupt costs the current thread one unit of budget, and the CPU with its last; a timer interrupt always costs it the CPU |
| `SchedLaws.InterruptStarts` | code/chcore-lab-2021/kernel/sched/policy_rr.c:160-189 | an interrupt on a CPU without a current thread dispatches one |
| `SchedLaws.YieldHandsOver` | code/chcore-lab-2021/kernel/sched/sched.c:149-155 | a thread that yields loses its budget and the CPU, to the head of the queue if there is one |
| `SchedLaws.TwoTicksExhaust` | code/chcore-lab-2021/kernel/sched/policy_rr.c:229-235 | two ticks exhaust any budget, so a timer interrupt always reschedules |
| `IpcLaws.BoundedWait` | code/chcore-lab-2021/kernel/sched/policy_rr.c:120-235 | a thread at place p of a CPU's queue is dispatched by that CPU after at most p + 1 timer interrupts on it, in every run of the whole system |
| `IpcLaws.InterruptBrings` | code/chcore-lab-2021/kernel/exception/irq.c:35-57 | a timer interrupt on its CPU moves a queued thread one place ahead or onto the CPU |
| `IpcLimits.KeptExactly` | code/chcore-lab-2021/kernel/sched/policy_rr.c:68-77 | the scheduler keeps the thread it takes off a CPU if and only if its affinity is none or names a CPU |
| `IpcLimits.NeverRunsAgain` | code/chcore-lab-2021/kernel/process/thread.c:421-431 | a running thread that sets its affinity below -1 and yields is on no queue and no CPU in any state of any run after that, unless it is a server that is called |
| `IpcExamples.BadAffinityReached` | code/chcore-lab-2021/kernel/process/thread.c:421-431 | an example: two events from boot lead to a thread that is lost so |
| `IpcRuns.BootGood` | code/chcore-lab-2021/kernel/sched/policy_rr.c:194-222 | the state after initialisation satisfies the invariant of the whole system |
| `Sched.Scheduler.MigrateToServer` | code/chcore-lab-2021/kernel/ipc/ipc_call.c:108-154 | the caller waits; the target serves the connection on this CPU with the connection's stack, the callback, the argument and the caller's scheduling context |
| `Sched.Scheduler.SysIpcReturn` | code/chcore-lab-2021/kernel/ipc/ipc_return.c:34-74 | the caller takes the CPU back with the result; a thread that serves no call goes on unchanged |
| `IpcChain.CallKeeps` | code/chcore-lab-2021/kernel/ipc/ipc_call.c:108-154 | a call of an unengaged thread extends the caller's chain by it and keeps the invariant of all chains |
| `IpcChain.ReturnKeeps` | code/chcore-lab-2021/kernel/ipc/ipc_return.c:34-74 | a return takes the server off its chain and keeps the invariant of all chains |
| `IpcChain.CallerBelow` | code/chcore-lab-2021/kernel/ipc/ipc_return.c:36 | a serving thread has its caller right below it in its chain, waiting and without a place |
| `IpcChain.UnengagedExactly` | code/chcore-lab-2021/kernel/ipc/ipc_call.c:110-115 | a thread serves nobody, waits for nobody and has no place if and only if it is in no chain |
| `IpcChain.CurrentIsTop` | code/chcore-lab-2021/kernel/ipc/ipc_call.c:112 | the current thread of a CPU, if not idle, is the top of a chain |
| `IpcChain.CallServes` | code/chcore-lab-2021/kernel/ipc/ipc_call.c:108-154 | after a call the target runs on this CPU at the handler, on the stack of the connection, with the argument, in the caller's scheduling context, for this caller; the caller waits; nothing else changes |
| `IpcChain.ReturnResumes` | code/chcore-lab-2021/kernel/ipc/ipc_return.c:34-74 | after a return the caller runs on this CPU with the result and all else as it was, the server serves nobody, and nothing else changes |
| `IpcRuns.FirstCall` | code/chcore-lab-2021/kernel/ipc/ipc_call.c:30-154 | a new server that is called over a new connection runs with the handler, stack and argument it was given |
| `IpcRuns.ShadowIsFree` | code/chcore-lab-2021/kernel/ipc/ipc_call.c:110-113 | for a shadow thread, having no active connection is all that a new call needs |
| `IpcRuns.StepKeeps` | code/chcore-lab-2021/kernel/ipc/ipc_call.c:108-154 | interrupts, yields, affinity changes, new threads and connections, calls and returns all keep the invariant |
| `IpcRuns.After` | code/chcore-lab-2021/kernel/ipc/ipc_call.c:108-154 | the invariant holds after every run in which no connection is called while it is active |
| `IpcRuns.SpawnStarts` | code/chcore-lab-2021/kernel/process/thread.c:88-125 | a new thread is last on the queue its affinity names, ready to run at its entry point with its stack, argument and two ticks |
| `IpcRuns.UserCode` | code/chcore-lab-2021/kernel/ipc/ipc_call.c:108-154 | between entries into the kernel user code changes the registers of its own thread and nothing else |
| `IpcRuns.AffinityStored` | code/chcore-lab-2021/kernel/process/thread.c:389-436 | an affinity is stored unless it is beyond the last CPU |
| `IpcRuns.RescheduleThreads` | code/chcore-lab-2021/kernel/sched/policy_rr.c:160-189 | rescheduling changes only the state and CPU of threads and wakes no waiting thread |
| `IpcLaws.ExactlyTheTopRuns` | code/chcore-lab-2021/kernel/ipc/ipc_call.c:112-143 | of each chain exactly the top is current or queued, every caller below waits, each serves the one below, and all share the client's scheduling context |
| `IpcLaws.ClientsStay` | code/chcore-lab-2021/kernel/ipc/ipc_call.c:108-154 | no client is ever lost: through every run its chain goes on, and exactly one thread of it has a place |
| `IpcLaws.FrozenBelow` | code/chcore-lab-2021/kernel/ipc/ipc_call.c:114 | while something runs above them, the waiting threads of a chain are untouched in all registers and fields but their affinity |
| `IpcLaws.CallsUnwind` | code/chcore-lab-2021/kernel/ipc/ipc_return.c:34-74 | whatever runs between a call and the matching return, the caller goes on where it called, on its old chain, with the returned value: returns unwind last in, first out |
| `IpcLimits.CallSoundExactly` | code/chcore-lab-2021/kernel/ipc/ipc_call.c:112-115 | a call keeps the system sound if and only if its server serves no other call |
| `IpcLimits.WaitsForever` | code/chcore-lab-2021/kernel/ipc/ipc_call.c:112-115 | after a second call of a busy server its first caller waits, without a place, in every state of every run, unless it is a server itself that is called |
| `IpcExamples.BusyCallReached` | code/chcore-lab-2021/kernel/ipc/ipc_call.c:112-115 | an example: seven allowed events from boot lead to a second call of a busy server |
| `IpcStrays.StrandedStays` | code/chcore-lab-2021/kernel/ipc/ipc_call.c:108-154 | a thread without a place whose calls nobody serves stays so through every step that does not call it, whatever rules callers break |
| `IpcStrays.StrandedForever` | code/chcore-lab-2021/kernel/ipc/ipc_call.c:108-154 | and so through every run, as the thread it was but for its affinity |
| `IpcStrays.ClientStrandedForever` | code/chcore-lab-2021/kernel/ipc/ipc_call.c:108-154 | a thread that is no server is never called, so it stays stranded in every run |
| `IpcLimits.OneServer` | code/chcore-lab-2021/kernel/ipc/ipc_call.c:112-113 | a caller has one server at most |
| `Slab.SizeToOrder` | code/chcore-lab-2021/kernel/mm/slab.c:24-37 | the least order that holds the size |
| `Slab.SizeToPageOrder` | code/chcore-lab-2021/kernel/mm/kmalloc.c:23-42 | the least order of pages that holds the size, while the number of pages fits an int |
| `Slab.Allocator.AllocSlabMemory` | code/chcore-lab-2021/kernel/mm/slab.c:44-69 | takes one chunk of 512 pages, whose slab fields then all name it; fails exactly if no aligned free block of that size is left |
| `Slab.Allocator.LinkSlots` | code/chcore-lab-2021/kernel/mm/slab.c:91-96 | the loop links all slots of the new slab in order and ends with NULL |
| `Slab.Allocator.NewSlab` | code/chcore-lab-2021/kernel/mm/slab.c:71-99 | a new slab with all its slots free goes first on its list, exactly if a free block for it exists; no live block changes |
| `Slab.Allocator.AllocInSlabNolock` | code/chcore-lab-2021/kernel/mm/slab.c:101-132 | takes the first free slot of the first slab that has one; a new slab only if every slab of the class is full; fails exactly if there is no free block for that either; the retry ends at once |
| `Slab.Allocator.FindSlab` | code/chcore-lab-2021/kernel/mm/slab.c:108-124 | the first slab of the list with a free slot, or none |
| `Slab.Allocator.InitSlab` | code/chcore-lab-2021/kernel/mm/slab.c:147-156 | one slab on every list, exactly if the pool has seven free blocks for them; no live block changes |
| `Slab.Allocator.AllocInSlab` | code/chcore-lab-2021/kernel/mm/slab.c:158-169 | one new block from the least size class that holds the size; fails exactly if all slabs of the class are full and no block for a new one is free |
| `Slab.Allocator.FreeInSlab` | code/chcore-lab-2021/kernel/mm/slab.c:171-184 | the page leads to the owning slab; the block goes first on its free list, and only that block ends |
| `Slab.Allocator.Kmalloc` | code/chcore-lab-2021/kernel/mm/kmalloc.c:44-60 | one new block at an address where there was none, of the least class or order that holds the size, and no other block changes; fails exactly if, for a small size, its class is full and no block for a slab is free, and for a large one no block of its order is free |
| `Slab.Allocator.Kfree` | code/chcore-lab-2021/kernel/mm/kmalloc.c:76-85 | ends exactly that block, giving it back to its slab or to the page allocator, whichever it came from |
| `HeapModel.BlocksApart` | code/chcore-lab-2021/kernel/mm/kmalloc.c:44-85 | live blocks never overlap, be they slots or pages |
| `HeapModel.SlotRoute` | code/chcore-lab-2021/kernel/mm/slab.c:178-181 | a slot's page names the slab it belongs to |
| `HeapModel.PageRoute` | code/chcore-lab-2021/kernel/mm/kmalloc.c:80-84 | the first page of a chunk handed out as pages names no slab |
| `HeapModel.PopGains` | code/chcore-lab-2021/kernel/mm/slab.c:108-113 | taking a free slot hands out that slot, which was no live block, and nothing else |
| `HeapModel.PushLoses` | code/chcore-lab-2021/kernel/mm/slab.c:181-183 | giving a slot back ends that block and no other |
| `HeapModel.GrowKeeps` | code/chcore-lab-2021/kernel/mm/slab.c:126-129 | a new slab hands out nothing and takes no memory in use |
| `Slab.FreedIsNext` | code/chcore-lab-2021/kernel/mm/slab.c:101-184 | last in, first out: a slot given back right after it was taken is what the next allocation of its class takes, and unless the slab is new every free list is as before |
| `SlabModel.AllSlotsExact` | code/chcore-lab-2021/kernel/mm/slab.c:82-96 | the list of a new slab holds exactly its slots, each once |
| `SlabModel.SlotsApart` | code/chcore-lab-2021/kernel/mm/slab.c:82-94 | different slots of a slab do not overlap |
| `SlabModel.SlotOfOne` | code/chcore-lab-2021/kernel/mm/slab.c:82-94 | no slot is in two slabs |
| `SlabModel.PopKeeps` | code/chcore-lab-2021/kernel/mm/slab.c:109-112 | taking the head keeps every free list a duplicate-free list of slots of its slab |
| `SlabModel.PushKeeps` | code/chcore-lab-2021/kernel/mm/slab.c:181-183 | so does giving a slot back |
| `SlabModel.AddKeeps` | code/chcore-lab-2021/kernel/mm/slab.c:126-129 | so does a new slab |
| `Radix.Radix.constructor` | code/chcore-lab-2021/kernel/common/radix.c:26-47 | an empty tree, with or without a root node, maps no key |
| `Radix.Radix.RadixAdd` | code/chcore-lab-2021/kernel/common/radix.c:61-102 | on success the key leads to the value and every other key to what it did; on -ENOMEM, at any level, every key does; enough memory means success |
| `Radix.Radix.RadixGet` | code/chcore-lab-2021/kernel/common/radix.c:104-132 | the value of the key, NULL if it has none |
| `Radix.Radix.RadixDel` | code/chcore-lab-2021/kernel/common/radix.c:134-137 | the key leads to NULL, or nothing changes |
| `Radix.Radix.FreeNode` | code/chcore-lab-2021/kernel/common/radix.c:139-159 | calls the deleter with every value below the node, in order, if there is a deleter |
| `Radix.Radix.RadixFree` | code/chcore-lab-2021/kernel/common/radix.c:161-171 | calls the deleter with every stored value; the error for a tree without root |
| `Radix.StoredOnce` | code/chcore-lab-2021/kernel/common/radix.c:139-159 | the values freed are one for each path of digits that leads to a value, each exactly once |
| `Radix.StoredKey` | code/chcore-lab-2021/kernel/common/radix.c:139-159 | so each key with a value has it freed exactly once |
| `Radix.StoredInOrder` | code/chcore-lab-2021/kernel/common/radix.c:139-159 | and the keys are gone through in ascending order |
| `Radix.RunRefines` | code/chcore-lab-2021/kernel/common/radix.c:61-137 | after any run of additions and deletions, failed ones included, every key leads to what a map would hold |
| `RadixModel.PathInjective` | code/chcore-lab-2021/kernel/common/radix.c:80-83 | different keys have different digits |
| `RadixModel.StoreGets` | code/chcore-lab-2021/kernel/common/radix.c:97-99 | a store at a leaf changes what its own key leads to and no other |
| `RadixModel.LinkGets` | code/chcore-lab-2021/kernel/common/radix.c:88-93 | a new empty node changes what no key leads to |
| `Cpio.Hex8` | code/chcore-lab-2021/kernel/common/cpio.c:24-35 | the number that the digits sum up to in words of 64 bits, as the source counts them |
| `Cpio.HexRoundTrip` | code/chcore-lab-2021/kernel/common/cpio.c:24-35 | reading up to sixteen upper-case digits gives back the number they print |
| `Cpio.HexExactly` | code/chcore-lab-2021/kernel/common/cpio.c:29-32 | a hexadecimal number of eight digits is read right if and only if none is lower-case |
| `Cpio.LowerCaseTen` | code/chcore-lab-2021/kernel/common/cpio.c:29-32 | an example: ten in lower case is read as 49 |
| `Cpio.CpioExtract` | code/chcore-lab-2021/kernel/common/cpio.c:88-122 | the loop yields the files that the archive describes, in order, ending at the trailer or when records run out; or it stops exactly where the magic number is wrong, or runs beyond memory |
| `Cpio.CpioExtractSingle` | code/chcore-lab-2021/kernel/common/cpio.c:124-161 | the loop yields the first file of the name, or reports that there is none, stops at a wrong magic number, or runs beyond memory |
| `Cpio.SingleIsSearch` | code/chcore-lab-2021/kernel/common/cpio.c:88-161 | looking up one file agrees with a search of the extracted list |
| `Cpio.FewerRecords` | code/chcore-lab-2021/kernel/common/cpio.c:88-122 | with memory for fewer records than there are files, the first ones are returned, in order |
| `Cpio.RoundTrip` | code/chcore-lab-2021/kernel/common/cpio.c:88-122 | an archive written from any list of files, from a 4-aligned start, is read back as that list in order, headers included |
| `Cpio.LookupRoundTrip` | code/chcore-lab-2021/kernel/common/cpio.c:124-161 | and a lookup in it finds the data of the first file of the name, or none |
| `Print.Prints` | code/chcore-lab-2021/user/lib/print.c:58-90 | writes the string with the places it is short of the width filled by zeros or spaces, on its right or on its left as the flags say, and returns how many characters it wrote |
| `Print.SimpleOutputI` | code/chcore-lab-2021/user/lib/print.c:92-133 | writes the number with its sign, digits and padding, within the 64-byte buffer, and returns how many characters it wrote |
| `Print.FillDigits` | code/chcore-lab-2021/user/lib/print.c:111-120 | the digits fill the end of the buffer, in at most 22 places |
| `Print.DigitsCase` | code/chcore-lab-2021/user/lib/print.c:114-118 | every character written is a digit of the base, letters from letbase on |
| `Print.DigitsBack` | code/chcore-lab-2021/user/lib/print.c:114-120 | reading the digits gives back the number |
| `Print.PaddedSides` | code/chcore-lab-2021/user/lib/print.c:58-90 | padding leaves the string whole, with the fill character alone on the one side the flag names |
| `Print.TextSides` | code/chcore-lab-2021/user/lib/print.c:92-133 | a minus sign exactly for negative numbers in signed base 10, then the digits; spaces outside, zeros between sign and digits or behind them |
| `Print.TextWidth` | code/chcore-lab-2021/user/lib/print.c:58-133 | the count is the greater of the width and the natural length |
| `CpioPrint.PrintedIsRead` | code/chcore-lab-2021/user/lib/print.c:58-133 | what %08X prints of a 32-bit number are its eight upper-case digits, and hex8_u64 reads the number back from them |
| `Print.ReadBackExactly` | code/chcore-lab-2021/user/lib/print.c:92-133 | reading the printed text gives back the number if and only if no zeros are padded on the right of a number other than 0 |
| `Print.FiveReadsAsFifty` | code/chcore-lab-2021/user/lib/print.c:58-90 | an example: 5 in two places, padded with zeros on the right, reads as 50 |

## Left out

Contracts that say less than the code does:

- Buddy.Pool.GetPages: requires an order below BUDDY_MAX_ORDER; beyond it the source indexes past its lists.
- Buddy.Pool.constructor: requires a page-aligned start, and addresses do not wrap at 2^64.
- PageTable.Translation.Query: models tables without block entries; so do the range functions.
- CapSystem.Kernel.CapCopy: a slot stored for a negative id is kept in the map under that id, and `wild` says that memory beside the table was written; which memory that is is not part of this model, nor the stop if the bit read there is 0.
- Capability.After: runs copy and move capabilities only where an id is unused or the table can be expanded, which is the exact condition for keeping the invariant.
- CapSystem.Kernel.CapFree: models objects without a deinit hook; a thread's teardown is not part of this model.
- CapSystem.Kernel.ObjGet: an id outside the table is answered like an empty slot; the source's range test never fires for it.
- TicketLock.StepRefines: models sequentially consistent accesses and the exclusive monitor, not weaker memory orders.
- Sched.Scheduler.RrDequeue: removes the thread from the queue of its cpuid field, which the invariant proves to be its queue.
- IpcRuns.StepKeeps: leaves out threads that exit, and takes connections as given instead of building their shared buffers.
- IpcRuns.After: a new server has a scheduling context of its own, where the source stores NULL until the first call (`kernel/ipc/ipc_client.c:50`); a new thread has affinity -1 or 0 to 3, which `sys_create_thread` does not check, since with any other the scheduler refuses the thread and `thread_create` stops at BUG_ON(ret) (`kernel/process/thread.c:122-123`).
- Slab.Allocator.Kmalloc: without memory the result is None where the source stops or converts a NULL page to an address; sizes beyond the largest chunk are excluded.
- Slab.SizeToOrder: models sizes below 2^31, since the source copies the size to an int.
- Slab.SizeToPageOrder: models up to 2^31 - 1 pages, since the source shifts an int.
- Slab.Allocator.InitSlab: where it fails, it says nothing of the slabs set up before; the source stops there.
- Print.SimpleOutputI: leaves out bases other than 8, 10 and 16, and takes the negation of the least 64-bit number, which C leaves undefined, to wrap around.
- Cpio.CpioExtract: a name or file that does not end in memory counts as running beyond it, also where the source would only compute an address that wraps around.

Parts that are not part of this model:

- Ready queues are sequence fields; `lists.dfy` proves the list code that implements them.
- The `slab` field of struct page and the arrays of the radix tree are sequences; the links through free slots are a map from addresses.
- TLB and cache maintenance, barriers, MMIO, timer registers, boot code: no state worth proving.
- Copying message payloads and capabilities from and to user memory, and address spaces of threads.
- The root process object, which is built without its list of slots.
- Entries by synchronous exceptions in kernel mode release the big lock without taking it; balance is stated for all other entries.
- Block entries of the kernel's own mapping, whose address bits are left over from a table.
- vmregion.c and the heap break: regions may overlap there by design of the checks.
- thread_deinit, process_exit, sys_exit, process creation, ELF loading, connection set-up, system call plumbing.
- get_pages, free_pages and kzalloc: one call each of modelled functions.
- Format string parsing in print.c, and string helpers.
