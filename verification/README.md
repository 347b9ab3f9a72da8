# Models of the TrustZone secure kernel's algorithms

The secure-world kernel under `trustzone/tzone_sdk` contains a few self-contained algorithms over
pointers, bitmaps and packed words. This project models them in Dafny and proves what they promise.
Verify it with `dafny verify dfyconfig.toml`.

- **Buddy allocator.** `BuddySpec` says on values what `sw_buddy.c` does: the free blocks of each bin,
  the live blocks, the blocks that a failing split drops. `BuddyTheory` proves that over every run these
  tile the extent of the first block, and describes each operation exactly. `BuddyTree` has the chains and the
  parent-linked search tree as the source keeps them, nodes rewritten in place; `BuddyPool` is the pool
  structure whose methods are proved to take exactly the steps of `BuddySpec`. `SwMath` has the
  power-of-two helpers. `BuddyHeap` says when the blocks handed out lie inside the memory of the pool, which
  is half the extent in the pools of `sw_heap.c`, `BuddyMerge` which blocks a free joins, and `BuddyCases` has inputs on which the allocator falls
  short.
- **Page bitmaps.** `BitMap` relates words and masks to sets of page numbers, `PageSpec` states first fit,
  conservation and disjointness over runs, `PageMap` has the loops and the reserve, free and kernel-stack
  functions of `mem_mng.c` and `task.c`, the allocations, reserves and frees proved to be steps of such
  runs; `PageLoss` is a run from boot at whose end pages are lost.
- **MD5.** `Md5Spec` is RFC 1321 on byte strings; `Md5` is the buffered implementation of `md5.c`.
  `Md5Rounds` and `Md5Digests` compute digests that the RFC lists from that definition, step by step.
- **Lists, timers, scheduling.** `SwLink` has the intrusive rings, `TimeVal` the packed time arithmetic,
  `SwTimer` the timer queue; `ReadyQueue` states the scheduler on task ids and proves properties of its
  runs, `Scheduler` has the task and ready rings that refine it.
- **Cross-world parameters.** `Marshal` has the client's encode context and the secure side's decoder.
- **Division.** `SwDiv` has the doubling division for 32 and 64 bits.

Where the code does not do what its documentation suggests, the model follows the code and the exact
condition is a theorem, with an input on which it fails: `AllocHoldsIff` (`HoldsFails`),
`ContainedIff` (`SomeRunOutside`), `AllocWrapsIff` (`HeapWraps`), `AllocThenReleaseIff` and
`ReachableUndoIff` (`UndoFails`), `FreeTakesBackIff` (`FreeRefused`),
`RoundTripIff` and `AllocKernelStack` (`RollbackLeaks`), `VirAllocThenFree` (`VirFreeLoses`),
`DivideExactIff` (`UpperHalf`), `EncodeArray` (`WrapAccepted`), and `ScheduleTaskNext` (`ScheduledTwice`). `RoundUpCoversIff`,
`GiveCountsIff`, `AddExactIff` and `SubtractExactIff` give the range in which an operation on words is
the one on numbers.

A region that the source guards with an interrupt lock is one atomic step here. Clock readings, the
outcome of mapping a page and of copying user data are parameters. Pointers are object references; a
pointer poisoned by `remove_link` is null.

## Model

| member | source | states |
|---|---|---|
| `BuddyTheory.RunSound` | trustzone/tzone_sdk/sierratee/src/lib/common/sw_buddy.c:639-840 | In every state reached from `sw_buddy_init` by any sequence of allocations, failing ones included, and frees of any pointers but NULL, known or not, of a pool of any size: the free, live and dropped blocks tile the extent, which is twice `max_alloc_size`, without overlap or gap, every descriptor is used once, and `curr_heap_size` plus the live bytes is the managed size modulo 2^32. |
| `BuddyHeap.ContainedIff` | trustzone/tzone_sdk/sierratee/src/lib/kernel/sw_heap.c:229-236 | A pool as `sw_heap.c` makes it, with `max_alloc_size` bytes of memory, keeps all live blocks inside its memory over all runs exactly if the minimum is the maximum. |
| `BuddyHeap.SomeRunOutside` | trustzone/tzone_sdk/sierratee/src/lib/kernel/sw_heap.c:229-236 | For every other such pool, with two, four or more descriptors, a run after which the first byte behind the memory starts a live block. |
| `BuddyHeap.OneNeverServes` | trustzone/tzone_sdk/sierratee/src/lib/common/sw_buddy.c:479-527 | With a single descriptor no run ever gets a block. |
| `BuddyCases.HeapInit` | trustzone/tzone_sdk/sierratee/src/lib/kernel/sw_heap.c:275-310 | The same in terms of the parameters that the two callers of `sw_buddy_init` pass. |
| `BuddyHeap.RunContained` | trustzone/tzone_sdk/sierratee/src/lib/common/sw_buddy.c:639-840 | A pool that has all the bytes of the extent keeps all live blocks inside its memory over every run. |
| `BuddyHeap.AllocInsideIff` | trustzone/tzone_sdk/sierratee/src/lib/common/sw_buddy.c:765-812 | An allocation in any state returns memory of the pool exactly if the list that serves it has a block that starts early enough. |
| `BuddyHeap.AllocWrapsIff` | trustzone/tzone_sdk/sierratee/src/lib/common/sw_buddy.c:765-812 | `curr_heap_size` goes down by the size of the block exactly if it was at least `min_alloc_size`; else it wraps. |
| `BuddyHeap.RunExact` | trustzone/tzone_sdk/sierratee/src/lib/common/sw_buddy.c:765-840 | Over every run `curr_heap_size` is the managed size less the live bytes, if the pool covers the extent or its memory is a multiple of `min_alloc_size`. |
| `BuddyCases.HeapWraps` | trustzone/tzone_sdk/sierratee/src/lib/common/sw_buddy.c:792-806 | A pool of 24 bytes in blocks of 16, on which the second request makes `curr_heap_size` wrap. |
| `BuddyTheory.ReachableBytes` | trustzone/tzone_sdk/sierratee/src/lib/common/sw_buddy.c:639-840 | After any run every byte of the extent is free, live or dropped, only one of these, and no other byte is. |
| `BuddyTheory.ReachableAlloc` | trustzone/tzone_sdk/sierratee/src/lib/common/sw_buddy.c:765-812 | After any run an allocation that returns a block returns the lowest of the first sufficient bin that is not empty, not live before, large enough exactly for requests up to 2^31, and no byte becomes free. |
| `BuddyTheory.ReachableUndoIff` | trustzone/tzone_sdk/sierratee/src/lib/common/sw_buddy.c:765-840 | After any run, freeing a block right after its allocation restores the state exactly if the block that served it had no free right neighbour in its bin. |
| `BuddyTheory.BytePartition` | trustzone/tzone_sdk/sierratee/src/lib/common/sw_buddy.c:479-600 | Byte by byte: each byte of the extent lies in exactly one free, live or dropped block, and no byte outside lies in any. |
| `BuddyTheory.AllocKeeps` | trustzone/tzone_sdk/sierratee/src/lib/common/sw_buddy.c:765-812 | Every `sw_buddy_alloc`, also one that fails half way, keeps the invariant. |
| `BuddyTheory.ReleaseKeeps` | trustzone/tzone_sdk/sierratee/src/lib/common/sw_buddy.c:823-840 | Every `sw_buddy_free` of a pointer other than NULL keeps the invariant, takes exactly its pointer off the live blocks and gives the size of that block back to `curr_heap_size`, as a word; an unknown pointer changes nothing. |
| `BuddyTheory.AllocSome` | trustzone/tzone_sdk/sierratee/src/lib/common/sw_buddy.c:479-527 | A successful allocation returns the lowest block of the first non-empty sufficient bin, cut to the computed bin, whose size is at least the rounded request; each level split gains exactly the upper half as a free block, and the block was not live. |
| `BuddyTheory.AllocOutcome` | trustzone/tzone_sdk/sierratee/src/lib/common/sw_buddy.c:765-812 | Exactly when an allocation succeeds, in terms of the bins and the spare descriptors; a failure changes nothing, or, when `get_free_node` runs out in the middle of a split, uses up all descriptors and drops the piece in hand. |
| `BuddyTheory.AllocHoldsIff` | trustzone/tzone_sdk/sierratee/src/lib/common/sw_buddy.c:765-812 | The returned block holds the request exactly if the request is at most 2^31; larger ones round to 0 and get a minimal block. |
| `BuddyCases.HoldsFails` | trustzone/tzone_sdk/sierratee/src/lib/common/sw_buddy.c:765-812 | On an initialised pool of 0x90000000 bytes a request of 2^31 + 1 bytes returns a block of 16 bytes. |
| `BuddyTheory.AllocBytes` | trustzone/tzone_sdk/sierratee/src/lib/common/sw_buddy.c:765-812 | A successful allocation moves exactly the bytes of its block, all free before, from free to live, and no other byte. |
| `BuddyTheory.ReleaseBytes` | trustzone/tzone_sdk/sierratee/src/lib/common/sw_buddy.c:536-600 | After a free the free bytes are exactly the old ones plus the freed block, through every merge at every level. |
| `BuddyMerge.ReleaseCoalesces` | trustzone/tzone_sdk/sierratee/src/lib/common/sw_buddy.c:536-600 | What any free of a live block joins, bin by bin: from its own bin up, the lowest free block with its right neighbour, the result entering the next bin; it stops in an empty bin, below the top, or at the freed block without a free right neighbour; the lists before and after are related exactly, and one descriptor comes back for each join. |
| `BuddyMerge.ReleaseJoins` | trustzone/tzone_sdk/sierratee/src/lib/common/sw_buddy.c:536-600 | In the bin of the freed block: if the lowest free block has a free right neighbour, both leave the bin and a descriptor comes back; else the bin has just gained the block. |
| `BuddyMerge.PairRestores` | trustzone/tzone_sdk/sierratee/src/lib/common/sw_buddy.c:765-840 | In a new pool two requests that succeed, of any sizes, and the frees of their blocks in either order restore the state after `sw_buddy_init`. |
| `BuddyMerge.Climb` | trustzone/tzone_sdk/sierratee/src/lib/common/sw_buddy.c:552-597 | A block that has just its right neighbour in every bin up to a given one is joined with all of them. |
| `BuddyTheory.AllocThenReleaseIff` | trustzone/tzone_sdk/sierratee/src/lib/common/sw_buddy.c:765-840 | Freeing a block right after its allocation restores the whole state exactly if the block that served it had no free right neighbour in its bin. |
| `BuddyCases.UndoFails` | trustzone/tzone_sdk/sierratee/src/lib/common/sw_buddy.c:765-840 | In every pool of at least eight descriptors that `sw_heap.c` makes, a run after which an allocation and the free of its block leave another state. |
| `BuddyCases.CasesAreInits` | trustzone/tzone_sdk/sierratee/src/lib/common/sw_buddy.c:639-752 | The concrete pools are what `sw_buddy_init` makes of parameters it accepts, one of them as `sw_heap.c` passes them. |
| `BuddyTheory.SplitOutcome` | trustzone/tzone_sdk/sierratee/src/lib/common/sw_buddy.c:479-527 | The splitting loop in closed form: one free block for each level passed, and what is left when the descriptors run out. |
| `BuddyTheory.BinFits` | trustzone/tzone_sdk/sierratee/src/lib/common/sw_buddy.c:765-790 | The bin computed from the two logarithms exists and its blocks are at least as large as the rounded request, equal for every bin but the first. |
| `BuddySpec.TwoTopsTooMany` | trustzone/tzone_sdk/sierratee/src/lib/common/sw_buddy.c:536-600 | Two blocks of the top bin cannot coexist in a tiled extent. |
| `BuddySpec.SplitTiles` | trustzone/tzone_sdk/sierratee/src/lib/common/sw_buddy.c:479-527 | Halving a block keeps the tiling. |
| `BuddySpec.MergeTiles` | trustzone/tzone_sdk/sierratee/src/lib/common/sw_buddy.c:536-600 | Joining a block with the one at the next address keeps the tiling, without any alignment. |
| `BuddyTheory.MergeKeeps` | trustzone/tzone_sdk/sierratee/src/lib/common/sw_buddy.c:536-600 | The merge loop keeps the invariant at every level and never leaves the top bin. |
| `BuddySpec.FirstBin` | trustzone/tzone_sdk/sierratee/src/lib/common/sw_buddy.c:479-500 | The bin a request is served from is the first non-empty one at or above the wanted bin. |
| `BuddyPool.Pool.SwBuddyInit` | trustzone/tzone_sdk/sierratee/src/lib/common/sw_buddy.c:639-752 | The pointer structures after `sw_buddy_init` are those of one free block spanning the extent, which starts on the first page boundary behind the descriptors, whatever the size of the pool; the call succeeds exactly if its checks accept the parameters. |
| `BuddyPool.Pool.SwBuddyAlloc` | trustzone/tzone_sdk/sierratee/src/lib/common/sw_buddy.c:765-812 | The pointer code takes the specified step from any reachable state, and leaves every chain, the tree and the counters intact. |
| `BuddyPool.Pool.SwBuddyFree` | trustzone/tzone_sdk/sierratee/src/lib/common/sw_buddy.c:823-840 | From any reachable state the pointer code for freeing any non-null pointer takes the specified step and leaves every chain, the tree and the counters intact. |
| `BuddyPool.Pool.GetFreeNode` | trustzone/tzone_sdk/sierratee/src/lib/common/sw_buddy.c:351-393 | Returns the first descriptor that is in no list, in a circular search from `next_free_index`, cleared, and moves the index behind it; none exactly if there is none, and then the index stays. |
| `BuddyPool.Pool.GetFreeBuddy` | trustzone/tzone_sdk/sierratee/src/lib/common/sw_buddy.c:479-527 | Search, split and loss of the block in hand, on the chains themselves. |
| `BuddyPool.Pool.SplitDown` | trustzone/tzone_sdk/sierratee/src/lib/common/sw_buddy.c:479-527 | The in-place splitting loop is the specified split. |
| `BuddyPool.Pool.ReturnToFreeArea` | trustzone/tzone_sdk/sierratee/src/lib/common/sw_buddy.c:536-600 | The in-place merge loop, with its test against the descriptor just freed, is the specified merge. |
| `BuddyPool.Pool.GetContiguousBlock` | trustzone/tzone_sdk/sierratee/src/lib/common/sw_buddy.c:405-455 | As called, it always returns NULL. |
| `BuddyPool.Pool.GetBuddyPtrSize` | trustzone/tzone_sdk/sierratee/src/lib/common/sw_buddy.c:871-881 | The recorded size of a live block, 0 for any other pointer, NULL included. |
| `BuddyPool.TopBinSingle` | trustzone/tzone_sdk/sierratee/src/lib/common/sw_buddy.c:536-600 | In every reachable state the top chain has at most one block. |
| `BuddyPool.TooLarge` | trustzone/tzone_sdk/sierratee/src/lib/common/sw_buddy.c:765-790 | A request above `max_alloc_size` asks `get_contiguous_block` for more than one block. |
| `BuddyPool.InitConfigValid` | trustzone/tzone_sdk/sierratee/src/lib/common/sw_buddy.c:639-752 | Accepted parameters give a valid configuration, whose extent is twice `max_alloc_size`, for any size of the pool. |
| `BuddyPool.DescriptorsFit` | trustzone/tzone_sdk/sierratee/src/lib/common/sw_buddy.c:695-722 | Of accepted parameters, the managed memory starts on the first page boundary behind the descriptors and ends where the pool ends; the area never wraps. |
| `BuddyPool.AreaHoldsIff` | trustzone/tzone_sdk/sierratee/src/lib/common/sw_buddy.c:610-624 | `get_manage_area` returns the fewest whole pages that hold a descriptor for each minimal block, exactly if these bytes do not exceed the last page below 2^32. |
| `BuddyPool.ChainInsert` | trustzone/tzone_sdk/sierratee/src/lib/common/sw_buddy.c:41-74 | A node enters a bin: the chain through `rchild` stays strictly ascending and `cnt` is its length. |
| `BuddyPool.ChainRemove` | trustzone/tzone_sdk/sierratee/src/lib/common/sw_buddy.c:158-295 | A node leaves its chain, the others stay in order and `cnt` follows. |
| `BuddyPool.TreeInsert` | trustzone/tzone_sdk/sierratee/src/lib/common/sw_buddy.c:82-108 | The live tree gains exactly the new address. |
| `BuddyPool.TreeRemove` | trustzone/tzone_sdk/sierratee/src/lib/common/sw_buddy.c:158-295 | The live tree loses exactly the given address. |
| `BuddyPool.SearchTree` | trustzone/tzone_sdk/sierratee/src/lib/common/sw_buddy.c:305-319 | The tree lookup is the lookup in the finite map from live addresses to bins; it returns the sentinel, which has no parent, exactly for a NULL pointer. |
| `BuddyTree.RemoveBtreeNode` | trustzone/tzone_sdk/sierratee/src/lib/common/sw_buddy.c:158-295 | In all its cases, successor or predecessor, direct child or deeper, removal takes exactly the given node out, keeps search order and every parent link, and detaches the node. |
| `BuddyTree.RemoveByMin` | trustzone/tzone_sdk/sierratee/src/lib/common/sw_buddy.c:158-295 | The cases in which the least node of the right subtree takes the removed place: all other nodes stay, order and links hold. |
| `BuddyTree.RemoveByMax` | trustzone/tzone_sdk/sierratee/src/lib/common/sw_buddy.c:158-295 | The cases in which the greatest node of the left subtree takes the removed place: all other nodes stay, order and links hold. |
| `BuddyTree.AddBtreeNode` | trustzone/tzone_sdk/sierratee/src/lib/common/sw_buddy.c:82-108 | Insertion at a leaf adds exactly the new key and keeps order and links. |
| `BuddyTree.AddSortedBtreeNode` | trustzone/tzone_sdk/sierratee/src/lib/common/sw_buddy.c:41-74 | Insertion into a free chain, between two nodes or at its end. |
| `BuddyTree.SearchBtreeNode` | trustzone/tzone_sdk/sierratee/src/lib/common/sw_buddy.c:305-319 | Finds the node with an address exactly if the tree holds it. |
| `BuddyTree.GetMinNode` | trustzone/tzone_sdk/sierratee/src/lib/common/sw_buddy.c:138-150 | The leftmost node, which holds the least key. |
| `BuddyTree.GetMaxNode` | trustzone/tzone_sdk/sierratee/src/lib/common/sw_buddy.c:117-129 | The rightmost node, which holds the greatest key. |
| `BuddyTree.PlugWf` | trustzone/tzone_sdk/sierratee/src/lib/common/sw_buddy.c:82-108 | A subtree with the same keys can be replaced inside a search tree without disturbing the order. |
| `BuddyTree.PlugLinked` | trustzone/tzone_sdk/sierratee/src/lib/common/sw_buddy.c:158-295 | Links of a tree are those of a subtree and of its context. |
| `SwMath.NextPowIsLeast` | trustzone/tzone_sdk/sierratee/src/lib/common/sw_math.c:52-61 | Up to 2^31 `next_pow_of_2` returns the least power of two that is not smaller. |
| `SwMath.NextPowSufficesIff` | trustzone/tzone_sdk/sierratee/src/lib/common/sw_math.c:52-61 | It returns a large enough number exactly up to 2^31; above, 0. |
| `SwMath.NextPowOf2` | trustzone/tzone_sdk/sierratee/src/lib/common/sw_math.c:52-61 | The step-by-step smearing computes that function. |
| `SwMath.IsPowOf2Iff` | trustzone/tzone_sdk/sierratee/src/lib/common/sw_math.c:40-43 | The bit trick accepts exactly the powers of two. |
| `SwMath.LogOfPow2` | trustzone/tzone_sdk/sierratee/src/lib/common/sw_math.c:70-78 | The de Bruijn lookup inverts every power of two of a word. |
| `SwDiv.DivideExactIff` | trustzone/tzone_sdk/sierratee/src/lib/common/sw_div.c:42-115 | For every dividend and nonzero divisor of the word: quotient and remainder are right exactly if the dividend does not exceed the divisor, or the divisor is a power of two below 2^32, or the first doubling of the divisor that passes the dividend fits the word. |
| `SwDiv.LowerHalfProper` | trustzone/tzone_sdk/sierratee/src/lib/common/sw_div.c:42-115 | So every dividend below 2^31 (2^63) is divided exactly, except by a 64-bit power of two of 2^32 or more. |
| `SwDiv.UpperHalf` | trustzone/tzone_sdk/sierratee/src/lib/common/sw_div.c:58-62 | In the upper half it depends on the divisor: 0x80000000 / 3 is right, 0xFFFFFFFF / 3 never returns. |
| `SwDiv.EndlessIff` | trustzone/tzone_sdk/sierratee/src/lib/common/sw_div.c:58-61 | The modelled loop yields nothing exactly if its guard holds after any number of doublings. |
| `SwDiv.DivideWraps` | trustzone/tzone_sdk/sierratee/src/lib/common/sw_div.c:58-62 | When the doubling wraps, the call does not return or its quotient is too large. |
| `SwDiv.CallsBound` | trustzone/tzone_sdk/sierratee/src/lib/common/sw_div.c:42-115 | At most one recursive call for each one bit of the quotient. |
| `SwDiv.DivideByPower` | trustzone/tzone_sdk/sierratee/src/lib/common/sw_div.c:53-56 | The shift and mask for powers of two, right exactly below 2^32. |
| `SwDiv.SinglesBitIff` | trustzone/tzone_sdk/sierratee/src/lib/common/sw_math.c:40-43 | `is_pow_of_2` on numbers of any width. |
| `SwDiv.AndMask` | trustzone/tzone_sdk/sierratee/src/lib/common/sw_div.c:98-102 | Masking with one less than a power of two is the remainder. |
| `SwDiv.Uidiv` | trustzone/tzone_sdk/sierratee/src/lib/common/sw_div.c:42-64 | The 32-bit function, loop and recursion, returns the specified quotient; the true one on proper inputs. |
| `SwDiv.Uldivmod` | trustzone/tzone_sdk/sierratee/src/lib/common/sw_div.c:83-115 | The 64-bit function, with remainder. |
| `SwDiv.Grow` | trustzone/tzone_sdk/sierratee/src/lib/common/sw_div.c:106-109 | The doubling loop ends with the specified divisor and quotient, the divisor positive and at most the dividend. |
| `SwLink.AddLink` | trustzone/tzone_sdk/include/sw_link.h:95-112 | A node that is not in the ring enters it after or before any element: the sequence gains it at that place, next and prev stay inverse, nothing else is written. A node put behind the sentinel leaves a ring at the sentinel exactly if it was not in it. |
| `SwLink.CirclesNoRing` | trustzone/tzone_sdk/include/sw_link.h:95-112 | Once the walk from the sentinel runs into a circle that avoids it, no sequence of links from the sentinel is a ring. |
| `SwLink.RemoveLink` | trustzone/tzone_sdk/include/sw_link.h:82-93 | Deletion of any element but the first keeps the ring of the others in order. |
| `SwLink.LinkEmpty` | trustzone/tzone_sdk/include/sw_link.h:75-78 | A sentinel ring is reported empty exactly if it holds the sentinel alone. |
| `SwLink.QueueInsertTail` | trustzone/tzone_sdk/include/sw_link.h:115-123 | The headless queue appends. |
| `SwLink.QueueRemoveHead` | trustzone/tzone_sdk/include/sw_link.h:125-137 | The headless queue drops its first element. |
| `SwLink.RotateRing` | trustzone/tzone_sdk/include/sw_link.h:125-137 | A ring can be read from any element. |
| `TimeVal.AddExactIff` | trustzone/tzone_sdk/sierratee/src/core/sw_timer.c:113-124 | On normalised times the packed addition is exact in nanoseconds exactly if the seconds with carry fit a signed word; the result is normalised always. |
| `TimeVal.SubtractExactIff` | trustzone/tzone_sdk/sierratee/src/core/sw_timer.c:137-147 | On normalised times packed subtraction is exact exactly if the seconds with borrow fit a signed word: the borrow of the 64-bit subtraction already corrects the seconds. |
| `TimeVal.OrderIff` | trustzone/tzone_sdk/sierratee/src/core/sw_timer.c:177-185 | Comparing packed words compares nanoseconds, which justifies the queue order. |
| `SwTimer.SlotKeepsOrder` | trustzone/tzone_sdk/sierratee/src/core/sw_timer.c:161-193 | Inserting in front of the first later event keeps the queue ordered by expiry and, at equal expiry, by start. |
| `SwTimer.Slot` | trustzone/tzone_sdk/sierratee/src/core/sw_timer.c:161-193 | The place of an event: everything before it is due no later, what follows is later. |
| `SwTimer.FindSlot` | trustzone/tzone_sdk/sierratee/src/core/sw_timer.c:174-186 | The list walk finds that place. |
| `SwTimer.Enqueue` | trustzone/tzone_sdk/sierratee/src/core/sw_timer.c:161-197 | The ring gains the node of the event at that place. |
| `SwTimer.DueIff` | trustzone/tzone_sdk/sierratee/src/core/sw_timer.c:504-508 | The test of the interrupt on proper times: at most 1000 ns ahead. |
| `SwTimer.TickTimer.Start` | trustzone/tzone_sdk/sierratee/src/core/sw_timer.c:431-453 | Starting an inactive event: its expiry, its place in the queue, and the tick; the queue stays ordered, first come first served. |
| `SwTimer.TickTimer.Stop` | trustzone/tzone_sdk/sierratee/src/core/sw_timer.c:577-623 | Stopping takes exactly that active event out, a pending or inactive one is left alone; when the tick was set for the head and the head is stopped, it is set for the new head of the queue, or to the maximum if there is none. |
| `SwTimer.TickTimer.Interrupt` | trustzone/tzone_sdk/sierratee/src/core/sw_timer.c:488-531 | A prefix of the queue fires, in order, each event due when the clock is read for it; exactly those of them that have a handler are called, each once and in queue order; the first event left is not due and the tick was programmed for it. |
| `SwTimer.TickTimer.FireOrArm` | trustzone/tzone_sdk/sierratee/src/core/sw_timer.c:499-525 | A round fires the head exactly if it is due at the clock reading made for it, and calls its handler if it has one; else programs the tick for it and leaves the queue alone. |
| `SwTimer.TickTimer.QueueAdd` | trustzone/tzone_sdk/sierratee/src/core/sw_timer.c:161-197 | The event enters the queue behind all events due no later, its node enters the ring there, and it becomes active. |
| `SwTimer.TickTimer.QueueDel` | trustzone/tzone_sdk/sierratee/src/core/sw_timer.c:204-212 | Exactly the given event leaves queue and ring, the order of the others is kept, and it becomes inactive. |
| `ReadyQueue.RunKeeps` | trustzone/tzone_sdk/sierratee/src/core/global.c:178-422 | Over every run of schedules, starts, suspensions, creations, destructions and switches: no id is queued twice, queued tasks exist, and every ready or running task is queued or current. |
| `ReadyQueue.StepKeeps` | trustzone/tzone_sdk/sierratee/src/core/global.c:178-422 | Each of these operations keeps the ids distinct and known, and loses no ready or running task. |
| `ReadyQueue.BoundedWaiting` | trustzone/tzone_sdk/sierratee/src/core/global.c:351-422 | The task at position i of the ready queue is what the (i + 1)-th `get_next_task` returns, over any run without `schedule_task_next` and `destroy_task`. |
| `ReadyQueue.ServedInOrder` | trustzone/tzone_sdk/sierratee/src/core/global.c:351-422 | The queue is always a prefix of the tasks then returned followed by the tasks still queued. |
| `ReadyQueue.NextIs` | trustzone/tzone_sdk/sierratee/src/core/global.c:351-422 | What `get_next_task` returns and leaves: the head of the queue, or the current task if it is ready or running; only a current task that is ready or running is queued again, at the end. |
| `ReadyQueue.WaitingStaysOut` | trustzone/tzone_sdk/sierratee/src/core/global.c:240-422 | After a task that is not queued was made to wait or suspended, it is neither queued nor picked, over any run, until it is scheduled or started. |
| `ReadyQueue.StateAfter` | trustzone/tzone_sdk/sierratee/src/core/global.c:178-278 | The state of every task after every event: ready when scheduled by id, running when taken up, as asked when halted, suspended when created, and unchanged else. |
| `ReadyQueue.CurrentAfter` | trustzone/tzone_sdk/sierratee/src/core/scheduler.c:38-55 | The current task changes only when the scheduler takes up another or when it is suspended, and then is none. |
| `ReadyQueue.PutFirst` | trustzone/tzone_sdk/sierratee/src/core/global.c:204-208 | A task put first is what the next `get_next_task` returns. |
| `ReadyQueue.DropsFirst` | trustzone/tzone_sdk/sierratee/src/core/task.c:308-322 | The first occurrence of the id leaves the queue, the others keep their order. |
| `Scheduler.Global.ScheduleTask` | trustzone/tzone_sdk/sierratee/src/core/global.c:178-195 | On the ring: appended, unless a task with that id is queued. |
| `Scheduler.Global.ScheduleTaskNext` | trustzone/tzone_sdk/sierratee/src/core/global.c:204-208 | A task that is not queued is put first. The ready list stays intact, and a ring is left at its sentinel, exactly if the task was not queued. |
| `Scheduler.ScheduledTwice` | trustzone/tzone_sdk/sierratee/src/core/global.c:204-208 | From boot, by creating, starting and scheduling a task next, to a state without a ready ring. |
| `Scheduler.Global.ScheduleTaskId` | trustzone/tzone_sdk/sierratee/src/core/global.c:215-229 | Looked up, marked ready and queued. |
| `Scheduler.Global.SuspendTask` | trustzone/tzone_sdk/sierratee/src/core/global.c:240-278 | The state of the task with that id changes, a suspended current task is no longer current. |
| `Scheduler.Global.GetCurrentTask` | trustzone/tzone_sdk/sierratee/src/core/global.c:309-343 | The task of the list with the current id, or none. |
| `Scheduler.Global.GetNextTask` | trustzone/tzone_sdk/sierratee/src/core/global.c:351-422 | The pick and the new ready ring are the specified ones. |
| `Scheduler.Global.Schedule` | trustzone/tzone_sdk/sierratee/src/core/scheduler.c:38-55 | The scheduler step on rings, states and current id. |
| `Scheduler.Global.StartTask` | trustzone/tzone_sdk/sierratee/src/core/task.c:428-487 | A task that exists is queued. |
| `Scheduler.Global.CreateTask` | trustzone/tzone_sdk/sierratee/src/core/task.c:204-217 | A new suspended task joins the task list. |
| `Scheduler.Global.DestroyTask` | trustzone/tzone_sdk/sierratee/src/core/task.c:280-398 | The task leaves the ready list and the task list, if it exists. |
| `Scheduler.FindTask` | trustzone/tzone_sdk/sierratee/src/core/global.c:323-337 | The walk of a task list finds the first task with an id and its node. |
| `PageSpec.RunKeeps` | trustzone/tzone_sdk/sierratee/src/core/mem_mng.c:154-530 | Over every run of allocations, reservations and frees of what is held, the refused ones included: no two live ranges share a page, all lie in the bitmap and off the code, the set bits are exactly theirs and the code's, and the counter matches. A range whose free is refused stays held. |
| `PageSpec.StepKeeps` | trustzone/tzone_sdk/sierratee/src/core/mem_mng.c:154-530 | Each of these operations, carried out or refused, keeps that invariant. |
| `PageSpec.BootHolds` | trustzone/tzone_sdk/sierratee/src/core/mem_mng.c:47-142 | It holds of the maps that `sw_meminfo_init` leaves. |
| `PageSpec.FreeTakesBackIff` | trustzone/tzone_sdk/sierratee/src/core/mem_mng.c:450-477 | The free of a held range gives it back exactly if it starts at or before the end of the region; else bits, counter and holder stay. |
| `PageSpec.RoundTripIff` | trustzone/tzone_sdk/sierratee/src/core/mem_mng.c:154-477 | An allocation and the free of what it found restore the map exactly if nothing was found or the run starts where a free accepts it. |
| `PageSpec.RunFits` | trustzone/tzone_sdk/sierratee/src/core/mem_mng.c:154-201 | Over runs whose reservations stay within the counter, free plus used is the total, and a count that the counter lets through fits the bitmap. |
| `PageLoss.FreeRefused` | trustzone/tzone_sdk/sierratee/src/core/mem_mng.c:456-462 | An allowed run from boot, where the invariant holds, in a RAM of 263 pages, to a held range behind the RAM whose free the code refuses. |
| `PageLoss.RollbackLeaks` | trustzone/tzone_sdk/sierratee/src/core/task.c:745-755 | After such a run a kernel stack that cannot be completed loses its two pages. |
| `PageLoss.VirFreeLoses` | trustzone/tzone_sdk/sierratee/src/core/mem_mng.c:491-530 | After such a run a virtual allocation and its free give the virtual pages back and lose the physical ones. |
| `PageSpec.GiveCountsIff` | trustzone/tzone_sdk/sierratee/src/core/mem_mng.c:450-477 | A free keeps counter and bitmap in step exactly if all its pages were in use. |
| `PageSpec.TakeGiveIff` | trustzone/tzone_sdk/sierratee/src/core/mem_mng.c:154-477 | Taking a run and giving it back restores bitmap and counter exactly if the run was free. |
| `PageSpec.FirstFit` | trustzone/tzone_sdk/sierratee/src/core/mem_mng.c:173-190 | The search result is the lowest free run with start + count strictly below the bit count, and there is none exactly if -1. |
| `PageSpec.RoundUpCoversIff` | trustzone/tzone_sdk/sierratee/src/core/mem_mng.c:159-162 | The rounded size covers the request exactly if it is at most 2^32 - 4096; beyond, the rounding wraps. |
| `BitMap.BitChanged` | trustzone/tzone_sdk/sierratee/src/core/mem_mng.c:192-197 | Setting or clearing a bit of a word, most significant first, changes that bit alone. |
| `BitMap.PagesChanged` | trustzone/tzone_sdk/sierratee/src/core/mem_mng.c:192-197 | Setting or clearing a bit of the bitmap adds or removes exactly its page. |
| `PageMap.FindRun` | trustzone/tzone_sdk/sierratee/src/core/mem_mng.c:173-190 | The nested loops compute the first fit. |
| `PageMap.MarkRun` | trustzone/tzone_sdk/sierratee/src/core/mem_mng.c:192-197 | The marking loop adds exactly the run and counts it off. |
| `PageMap.ClearRun` | trustzone/tzone_sdk/sierratee/src/core/mem_mng.c:469-474 | The clearing loop removes exactly the run and counts it back. |
| `PageMap.MappedEach` | trustzone/tzone_sdk/sierratee/src/core/task.c:735-744 | After mapping, page i of the area leads to page i of the physical run, for every i, and every other page where it did. |
| `PageMap.UnmappedEach` | trustzone/tzone_sdk/sierratee/src/core/task.c:768-799 | After unmapping, no page of the area leads anywhere and every other page where it did. |
| `PageMap.MemInfo.PhyPageAlloc` | trustzone/tzone_sdk/sierratee/src/core/mem_mng.c:154-201 | Physical allocation: bitmap, counter and address, or no change. |
| `PageMap.MemInfo.VirPageAlloc` | trustzone/tzone_sdk/sierratee/src/core/mem_mng.c:215-274 | Virtual and physical run together, or neither map and no counter changes. |
| `PageMap.MemInfo.PhyAddrReserve` | trustzone/tzone_sdk/sierratee/src/core/mem_mng.c:288-334 | Reserves exactly if the address is in range and all pages are free; else no change. |
| `PageMap.MemInfo.VirAddrReserve` | trustzone/tzone_sdk/sierratee/src/core/mem_mng.c:348-397 | Reserves a virtual run exactly if its address is in range and all its pages are free; else bitmap and counter stay. |
| `PageMap.MemInfo.VirFreeReserve` | trustzone/tzone_sdk/sierratee/src/core/mem_mng.c:411-437 | Gives the run back exactly if the address is in range. |
| `PageMap.MemInfo.PhyAddrFree` | trustzone/tzone_sdk/sierratee/src/core/mem_mng.c:450-477 | Gives a physical run back, bits and counter, exactly if its address is in range; else no change. |
| `PageMap.MemInfo.VirAddrFree` | trustzone/tzone_sdk/sierratee/src/core/mem_mng.c:491-530 | Frees the virtual run and the physical run it is mapped to; its own upper bound adds four times the size. |
| `PageMap.MemInfo.AllocKernelStack` | trustzone/tzone_sdk/sierratee/src/core/task.c:712-756 | A stack and its guard page in both maps, mapped; or no stack, the virtual map as before, and the physical map after an allocation and its free: as before exactly if no run was found or it starts within the region. |
| `PageMap.MemInfo.FreeKernelStack` | trustzone/tzone_sdk/sierratee/src/core/task.c:768-799 | Gives both runs back and unmaps the stack. |
| `PageMap.MemInfo.AllocThenFree` | trustzone/tzone_sdk/sierratee/src/core/task.c:712-799 | Freeing a kernel stack restores both bitmaps, both counters and the mappings. |
| `PageMap.MemInfo.VirAllocThenFree` | trustzone/tzone_sdk/sierratee/src/core/mem_mng.c:215-530 | Freeing a virtual allocation restores both maps exactly if both range checks let its runs pass. |
| `PageMap.MemInfo.constructor` | trustzone/tzone_sdk/sierratee/src/core/mem_mng.c:47-142 | After boot the code pages are marked in both maps, the counters match, and both maps meet the invariant of the runs. |
| `Md5.State.Append` | trustzone/tzone_sdk/otz_driver/md5.c:347-382 | For any split of a message into calls the state is that of the concatenation: registers folded over the full blocks, the rest in the buffer, and eight times the length in the two-word counter. |
| `Md5.State.Finish` | trustzone/tzone_sdk/otz_driver/md5.c:385-405 | The digest is that of RFC 1321 sections 3.1 to 3.5 of everything appended, and no partial block is left. |
| `Md5.SplitsAgree` | trustzone/tzone_sdk/otz_driver/md5.c:347-382 | Two states with the same bytes appended agree in registers, counter and buffered rest. |
| `Md5.State.CountBytes` | trustzone/tzone_sdk/otz_driver/md5.c:352-361 | The two words count 8 times the length modulo 2^64, carry included. |
| `Md5.CarryExact` | trustzone/tzone_sdk/otz_driver/md5.c:358-361 | Adding the low word, the high bits and the carry is adding eight times the length modulo 2^64. |
| `Md5.State.Process` | trustzone/tzone_sdk/otz_driver/md5.c:156-334 | The unrolled block function is the 64-step function of section 3.4. |
| `Md5.Round1` | trustzone/tzone_sdk/otz_driver/md5.c:223-247 | Sixteen unrolled steps with rotating registers are sixteen steps of the definition. |
| `Md5.Round2` | trustzone/tzone_sdk/otz_driver/md5.c:249-273 | Steps 17 to 32: the operands written out are those of the definition. |
| `Md5.Round3` | trustzone/tzone_sdk/otz_driver/md5.c:275-299 | Steps 33 to 48: the operands written out are those of the definition. |
| `Md5.Round4` | trustzone/tzone_sdk/otz_driver/md5.c:301-325 | Steps 49 to 64: the operands written out are those of the definition. |
| `Md5Rounds.FSelects` | trustzone/tzone_sdk/otz_driver/md5.c:226 | The function of round 1 takes, in every bit, y where x is set and z where it is not. |
| `Md5Rounds.GSelects` | trustzone/tzone_sdk/otz_driver/md5.c:252 | The function of round 2 takes, in every bit, x where z is set and y where it is not. |
| `Md5Rounds.HParity` | trustzone/tzone_sdk/otz_driver/md5.c:278 | The function of round 3 is, in every bit, the parity of x, y and z. |
| `Md5Rounds.IInverts` | trustzone/tzone_sdk/otz_driver/md5.c:304 | The function of round 4 inverts y in every bit where x is set or z is not. |
| `Md5Rounds.IKeeps` | trustzone/tzone_sdk/otz_driver/md5.c:304 | In every other bit it is y. |
| `Md5Digests.EmptyDigest` | trustzone/tzone_sdk/otz_driver/md5.c:337-405 | The digest of the empty message is that of RFC 1321 section A.5. |
| `Md5Digests.AbcDigest` | trustzone/tzone_sdk/otz_driver/md5.c:337-405 | So is the digest of "abc". |
| `Md5Digests.DigitsDigest` | trustzone/tzone_sdk/otz_driver/md5.c:337-405 | And that of eight times "1234567890", whose padding takes a second block. |
| `Md5.State.Absorb` | trustzone/tzone_sdk/otz_driver/md5.c:363-381 | The bytes go through the buffer: partial block, full blocks, rest. |
| `Md5.State.FullBlocks` | trustzone/tzone_sdk/otz_driver/md5.c:374-381 | The block loop and the final partial block. |
| `Md5.State.constructor` | trustzone/tzone_sdk/otz_driver/md5.c:337-344 | The initial state is that of the empty message. |
| `Md5.CountIs` | trustzone/tzone_sdk/otz_driver/md5.c:395-397 | The saved bytes are the little-endian length in bits. |
| `Md5.PadParts` | trustzone/tzone_sdk/otz_driver/md5.c:395-401 | Message, padding table and saved length make up the padded message. |
| `Md5.DecodeBlock` | trustzone/tzone_sdk/otz_driver/md5.c:206-218 | The words of a block, low-order byte first. |
| `Md5Spec.PaddedWhole` | trustzone/tzone_sdk/otz_driver/md5.c:399-401 | Every padded message is a whole number of blocks, with one to 64 bytes of padding. |
| `Md5Spec.RotateLeftRotates` | trustzone/tzone_sdk/otz_driver/md5.c:221 | The shift-and-or is the rotation at every distance used. |
| `Marshal.DecodeRequest` | trustzone/tzone_sdk/sierratee/src/lib/common/task_control.c:68-118 | Decoding from offset 0 and position 0 gives back the accepted request parameters: types, lengths and bytes, in order. |
| `Marshal.Respond` | trustzone/tzone_sdk/sierratee/src/lib/common/task_control.c:141-150 | A service that writes each answer where `decode_data` points and records array lengths leaves every answer where the client will read it. |
| `Marshal.CollectResponses` | trustzone/tzone_sdk/otz_driver/otz_client_main.c:1869-1955 | The client's successive decodes return exactly the service's answers. |
| `Marshal.Encode.EncodeUint32` | trustzone/tzone_sdk/otz_driver/otz_client_main.c:1340-1427 | A word is accepted exactly if four bytes and a position are left; a refused one adds nothing; the offset stays the sum of the lengths, at most 1024, with at most 12 and 4 parameters. |
| `Marshal.Encode.EncodeArray` | trustzone/tzone_sdk/otz_driver/otz_client_main.c:1437-1529 | An array is accepted exactly if the word sum of offset and length is at most 1024, a position is left, and the bytes of a request array could be copied; a refused one adds nothing. The context stays valid exactly if no response array was accepted whose length makes the offset wrap; after such a one the metadata describes no parameters. |
| `Marshal.WrapAccepted` | trustzone/tzone_sdk/otz_driver/otz_client_main.c:1489-1515 | A response word and a response array of 2^32 - 4 bytes are both accepted, and the offset is back at 0. |
| `Marshal.Encode.DecodeUint32` | trustzone/tzone_sdk/otz_driver/otz_client_main.c:1762-1802 | Decode k returns answer k if a word comes next, else does nothing. The entry behind the last declared one is looked at too: if it says word, four bytes at the offset are returned and the context is no longer valid, exactly then. |
| `Marshal.Encode.DecodeArraySpace` | trustzone/tzone_sdk/otz_driver/otz_client_main.c:1869-1955 | Decode k returns answer k if an array comes next and the recorded length fits, else fails. The entry behind the last declared one is looked at too, with the same effect as for a word. |
| `Marshal.DecodeData` | trustzone/tzone_sdk/sierratee/src/lib/common/task_control.c:68-118 | The parameter at a position starts at the given offset and has its recorded length, the next offset is past it; an unknown type is an error and moves nothing. |
| `Marshal.UpdateResponseLen` | trustzone/tzone_sdk/sierratee/src/lib/common/task_control.c:141-150 | Records the length of the parameter before the position, within the table. |
| `Marshal.RequestAt` | trustzone/tzone_sdk/otz_driver/otz_client_main.c:1367-1378 | Parameter k of the request lies at the sum of the earlier lengths. |
| `Marshal.AnswerMore` | trustzone/tzone_sdk/sierratee/src/lib/common/task_control.c:141-150 | A later answer does not touch the earlier ones. |
| `Marshal.Encode.constructor` | trustzone/tzone_sdk/otz_driver/otz_client_main.c:1296-1323 | A new context is empty. |

## Left out

- BuddyPool.Pool.SwBuddyInit: requires, of parameters that pass the checks, `min_alloc_size` at least 2 (with 1 a request of twice `max_alloc_size` reaches the body of `get_contiguous_block`), word addresses for twice `max_alloc_size` bytes behind the descriptors, and fewer bins than `free_area` has entries, since with exactly MAX_BINS bins the source writes behind that array. How many bytes the pool has is not restricted. The descriptor array is a sequence of new structures of 28 bytes each.
- BuddyTheory.RunSound: frees in a run are of non-null pointers, for the reason given next; `BuddyPool.OnlySentinelNull` shows the null parent.
- BuddyPool.Pool.SwBuddyFree: requires a non-null pointer; a null pointer finds the sentinel of the live tree, whose null parent the removal then follows.
- BuddyPool.Pool.GetContiguousBlock: the body behind the count test is unreachable as called and is not modelled.
- SwTimer.TickTimer.Start: requires an inactive event; starting a queued one would link its node twice.
- SwTimer.TickTimer.Interrupt: handlers do not touch the timers; one that starts events again is not modelled.
- SwTimer.TickTimer.Start: that the tick is never later than the earliest event is not claimed; `timer_interrupt` resets `next_timelen` to the maximum, so a later start can move the tick past the head, as the contract shows.
- Scheduler.Global.DestroyTask: models the ready list and the task list; waking the tasks that wait for it is `ScheduleTaskNext`, and files, heaps, stacks and thread-local storage are not part of it.
- ReadyQueue.RunKeeps: `suspend_task` is run with the states its callers pass, WAIT and SUSPEND; `CONFIG_MULTI_GUESTS_SUPPORT` is off; `schedule_task_next` is allowed for tasks that are not queued, since for another `ScheduleTaskNext` shows that no ready ring is left.
- PageMap.MemInfo.AllocKernelStack: the page table is a map of page addresses; the two regions have the same size and bitmaps of equally many words, addresses fit 32 bits, sizes fit a signed word.
- PageMap.MemInfo.PhyPageAlloc: requires that a count the free counter lets through is at most the bit count, which `PageSpec.RunFits` gives of the states that runs within the counter reach; otherwise the loop bound itself wraps and the source reads behind the bitmap.
- PageMap.MemInfo.VirFreeReserve: requires the run to lie in the words of the bitmap, as do the other reserves and frees; the source then writes behind it.
- Md5.State.Append: lengths below 2^31 - 64, so that the sum of offset and length stays a signed word; the byte-order switch is modelled by its portable loop.
- Marshal.Encode.EncodeArray: a copy from user space of 2^32 - 1024 bytes or more does not succeed; what an invalid context does further is not modelled; the two buffers exist from the start instead of being allocated on first use.
- Marshal.Encode.DecodeUint32: requires that the entry looked at is in the metadata and, behind the last declared one, that the bytes read are in the buffer; at position 16 and at the end of the buffer the source reads behind them. The same holds of `DecodeArraySpace`.
- SwDiv.Uidiv: requires a nonzero divisor (the source panics) and that the loops end, as a call that does not return has no result; `EndlessIff` says what that means, and `DivideExactIff` covers these inputs.
- Memory-reference parameters and `otz_encode_data`: they index by word where the neighbouring code indexes by byte.
- `alloc_user_stack` and thread-local storage: their failure paths free another range than they took, or none.
- `__aeabi_idivmod`, `print_btree`, `dump_buddy_info`, `print_task_list` and status functions.
- Hardware access, page-table walks, board files, semaphores, ACLs, ELF loading, the private-heap wrapper, ioctl wrappers, demo applications and the shell.
