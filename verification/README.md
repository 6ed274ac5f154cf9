# Verified model of the USM memory manager

USM is a user-space memory manager: a daemon serves the page faults of other processes from a pool of physical
pages, swaps pages out to files and back in, and is woken through signals and a shared word of event bits. This
project models the parts of it whose correctness does not show in any one branch, and proves what they promise.

| files | what is modelled |
|---|---|
| `Bits`, `RobinHood`, `Crowding`, `Insertion`, `HashMap`, `LostItem` | the Robin Hood hash map, on arrays, refined to a finite map |
| `MergeOrder`, `Pending`, `Lists`, `ListMerge`, `ListSort` | the bottom-up merge sort on intrusive lists, on linked nodes |
| `ListOps` | the intrusive list operations, against the sequence of members |
| `Paging`, `PagingInv`, `PagingRuns`, `PagingProgress`, `PagingOrder`, `PagingQueues`, `PagingSeeks`, `PagingSlots`, `PagingRaces` | allocation, swap-out, swap cache, swap-in and freeing as interleaved steps |
| `SwapDevice`, `SwapEntry` | the slots of a swap device, the swap-cache search, the packed page-table entry in 64-bit arithmetic |
| `PreAlloc` | allocation of several pages at once and its run-length encoded message |
| `Dispatcher`, `Waiting`, `Sleeping` | the user-thread dispatchers, their sleep path and the waker, as interleaved steps |
| `DmaSplit`, `DmaWait` | the splitting of DMA copies in 64-bit arithmetic, and the wait for their completion |

Code that changes arrays and links in place is modelled by methods on arrays and nodes, proved against functions on
values. Protocols between threads are state machines; the theorems about them quantify over all runs. A step is what
a thread does between two points where another can get in, but for the coarser steps of `Paging` that are listed under
"Left out".

Where the code does less than one would expect of it, the model follows the code, and the exact condition is proved:

- The 16-bit distance of the hash map wraps, and `hashmap_set`, a growth or a shrink leaves the table out of order or
  loses an item, exactly when some k neighbouring buckets become home to k + 65535 entries (`Crowding.Crowded`,
  `HashMaps.HashMap.SetWithHash`, `HashMaps.Rehash`). `LostItem.LoseItem` is a run of calls that comes to it.
- Several things that belong together in paging are done one after the other without a lock. The invariant by which
  paging is invisible, and pages and slots are conserved, holds exactly as long as (`PagingRuns.CarefulExactly`,
  `PagingRuns.PagingInvisible`, `PagingRuns.RunConserves`)
  - nobody else has taken a page between its pick by an evictor and its hold (`PagingRaces.EvictedTwice` is a run in
    which a page comes to be on the free list twice);
  - no free event is handled for a page that has been reclaimed (`PagingRaces.FreedLate`: a process reads what it has
    not written);
  - an entry found in the swap cache is marked before its swap-out ends (`PagingRaces.MarkedLate`: a page is mapped at
    two addresses);
  - a transfer acts on its own slot, although all seeks and transfers share one file position, or has the same effect
    on another (`PagingRaces.CrossedReads`: a process reads another one's page; `PagingRaces.CrossedWrite`: a page is
    written over another one's slot). It does if nobody else seeks or transfers between a seek and its transfer
    (`PagingSeeks.GuardedCareful`); the code has a lock for that and does not take it;
  - no swap-in that fails is tried again as a first allocation, as it is in the code when no page is free
    (`PagingRaces.RetriedAfresh`: a process finds another one's page in place of its own).
- The slot of an address that is given up while its page is in swap is never free again (`PagingSlots.SlotLost`).
- A swap entry finds its slot again exactly for slot indices below 2^38 on device number 0 (`SwapEntry.SlotRoundTrip`).
- The run-length message is misread when the last run is one frame long and an old count is left in its slot
  (`PreAlloc.StaleCount`). `get_pages_prep` takes one page more than it reports, contrary to its comment, and writes
  beyond the message exactly when the pages after the first make more runs than it has slots
  (`PreAlloc.Pool.GetPagesPrep`, `PreAlloc.ScatterRuns`).
- A page retaken from the swap cache is not picked for eviction again (`PagingOrder.RetakenForGood`), and one just
  swapped in is the next to go (`PagingOrder.SwappedInEvictedFirst`). A page freed by a swap-out or a reclaim is not
  cleared before it is mapped elsewhere (`PagingOrder.FreshMapping`, `PagingRaces.ShownAnew`).
- A signal ends the wait for DMA completion early, and the full length is returned all the same
  (`DmaWait.InterruptedEarly`, `DmaWait.ReportExact`). A DMA request overruns its copy when the length rounded up to
  whole requests reaches 2^64 (`DmaSplit.SubmitCopy`, `DmaSplit.OverrunExample`).

Parameters stand for what the code does not determine: the hash function, whether an allocation succeeds (`alloc`),
the comparator, the contents of pages and memory, the events the kernel posts, and whether a user thread that gives
control back has finished.

## Model

| member | source | states |
|---|---|---|
| `RobinHood.MaskedNext` | page-fault-timings/variants/usm/daemon/impl/usm/hashmap.c:284 | In a table whose size is a power of two, the masked increment of every probe loop is the step to the next bucket, round the end of the table. |
| `RobinHood.HomeMod` | page-fault-timings/variants/usm/daemon/impl/usm/hashmap.c:303 | In a table whose size is a power of two, the masked hash where every probe begins is the hash modulo the size. |
| `RobinHood.DibBound` | page-fault-timings/variants/usm/daemon/impl/usm/hashmap.c:27-30 | A stored `dib` never exceeds the number of entries in the table, in any table that satisfies the Robin Hood order. |
| `RobinHood.EmptyExists` | page-fault-timings/variants/usm/daemon/impl/usm/hashmap.c:251-256 | With fewer entries than buckets there is an empty bucket for an unguarded probe loop to stop at. |
| `RobinHood.ContentsSize` | page-fault-timings/variants/usm/daemon/impl/usm/hashmap.c:385 | The finite map a table stands for has exactly as many bindings as the table has full buckets: no key is stored twice. |
| `RobinHood.PathFull` | page-fault-timings/variants/usm/daemon/impl/usm/hashmap.c:300-316 | Every bucket between an entry's home and the entry is full and holds an entry at least as far from its own home. |
| `RobinHood.SeekingEmpty` | page-fault-timings/variants/usm/daemon/impl/usm/hashmap.c:304-307 | A probe from a key's home that meets an empty bucket without having met the key proves that the key is nowhere in the table. |
| `RobinHood.SeekingAbsent` | page-fault-timings/variants/usm/daemon/impl/usm/hashmap.c:278-283 | Before a new entry takes the bucket of one nearer home, the order already rules out its own key in the rest of the table: displacing before seeing a match cannot create a duplicate. |
| `RobinHood.Place` | page-fault-timings/variants/usm/daemon/impl/usm/hashmap.c:278-283 | An entry may take the bucket of one that is nearer its home without breaking the order of the table. |
| `RobinHood.HoleShift` | page-fault-timings/variants/usm/daemon/impl/usm/hashmap.c:355-363 | Moving the entry after a hole one bucket back, with its `dib` lowered, keeps the table in order but for the hole, which moves on. |
| `Crowding.FitsNotCrowded` | page-fault-timings/variants/usm/daemon/impl/usm/hashmap.c:27-30 | However many entries a table has: if its stored `dib`s are right and fit in 16 bits, no k neighbouring buckets are home to k + 65535 entries. |
| `Crowding.FullCrowds` | page-fault-timings/variants/usm/daemon/impl/usm/hashmap.c:278-285 | An entry in flight whose `dib` is at the 16-bit maximum and that has to go on is one of k + 65535 entries whose homes are k neighbouring buckets. |
| `Crowding.CrowdedAtMax` | page-fault-timings/variants/usm/daemon/impl/usm/hashmap.c:27-30 | 65536 entries crowd a table exactly when they all have one home bucket. |
| `Crowding.FewNotCrowded` | page-fault-timings/variants/usm/daemon/impl/usm/hashmap.c:27-30 | 65535 entries and fewer never crowd a table. |
| `Insertion.InsertFits` | page-fault-timings/variants/usm/daemon/impl/usm/hashmap.c:215-228 | An entry on its way can go on within 16 bits unless it crowds the table, for any number of entries. |
| `Insertion.StoreEmpty` | page-fault-timings/variants/usm/daemon/impl/usm/hashmap.c:266-270 | At the empty bucket where the loop of a set stops, storing the entry in flight gives exactly the old map with the new binding and a table in order, unless the new key crowds the table. |
| `Insertion.StoreCrowded` | page-fault-timings/variants/usm/daemon/impl/usm/hashmap.c:266-270 | If it does, the table is out of order or an entry is lost, and at most one is; every other binding is still in a bucket. |
| `Insertion.StoreLost` | page-fault-timings/variants/usm/daemon/impl/usm/hashmap.c:266-270 | With 65535 entries stored, the one that is lost is the new item. |
| `Insertion.StoreStep` | page-fault-timings/variants/usm/daemon/impl/usm/hashmap.c:278-285 | One turn of the set loop past a foreign entry keeps what the loop promises for tables in order and out of order: displacement, wrap-around of the table and of the 16-bit `dib` included. |
| `Insertion.StoreMatch` | page-fault-timings/variants/usm/daemon/impl/usm/hashmap.c:272-277 | When the loop meets the key it is setting in a table in order, nothing has been displaced: the table is still the one it started with. |
| `HashMaps.RoundCapacity` | page-fault-timings/variants/usm/daemon/impl/usm/hashmap.c:92-100 | The capacity is the least power of two that is at least 16 and at least what was asked for. |
| `HashMaps.HashMap.constructor` | page-fault-timings/variants/usm/daemon/impl/usm/hashmap.c:82-139 | A new map is empty and satisfies the invariant: powers of two, load bound, order. |
| `HashMaps.Reinsert` | page-fault-timings/variants/usm/daemon/impl/usm/hashmap.c:213-228 | Re-inserting one entry adds exactly its binding to the new table, unless it crowds it, although displaced entries are parked in the old array; in any case no binding appears that was not there and every other bucket of the old array is untouched. |
| `HashMaps.Rehash` | page-fault-timings/variants/usm/daemon/impl/usm/hashmap.c:208-229 | Re-inserting all entries, scribbling on the array being iterated over, gives a table in order with the same map exactly when the homes of the entries do not crowd the new table. |
| `HashMaps.HashMap.Resize` | page-fault-timings/variants/usm/daemon/impl/usm/hashmap.c:202-238 | For every admissible new capacity and any number of entries: the map is unchanged and the invariant kept exactly when the new table is not crowded; if memory is short, nothing changes at all. |
| `HashMaps.HashMap.Locate` | page-fault-timings/variants/usm/daemon/impl/usm/hashmap.c:304-315 | The probe ends, at the key's bucket exactly when the map holds the key and otherwise at an empty one. |
| `HashMaps.HashMap.GetWithHash` | page-fault-timings/variants/usm/daemon/impl/usm/hashmap.c:300-316 | Returns the item exactly when the map holds the key under the low 48 bits of the hash. |
| `HashMaps.HashMap.Get` | page-fault-timings/variants/usm/daemon/impl/usm/hashmap.c:320-322 | Look-up in the finite map, for any hash function. |
| `HashMaps.HashMap.EmptyBucket` | page-fault-timings/variants/usm/daemon/impl/usm/hashmap.c:132-134 | The load bound leaves an empty bucket in every table an operation can see. |
| `HashMaps.HashMap.LoadBound` | page-fault-timings/variants/usm/daemon/impl/usm/hashmap.c:132-134 | The entry count is the size of the map and is below the number of buckets. |
| `HashMaps.HashMap.GrowatNot65535` | page-fault-timings/variants/usm/daemon/impl/usm/hashmap.c:132-134 | The growth threshold of a power-of-two table is never 65535. |
| `HashMaps.HashMap.Grow` | page-fault-timings/variants/usm/daemon/impl/usm/hashmap.c:251-256 | Growing leaves the count strictly below the new threshold, so that the equality test never skips a growth, and the map alone exactly when the grown table is not crowded. |
| `HashMaps.HashMap.MakeRoom` | page-fault-timings/variants/usm/daemon/impl/usm/hashmap.c:251-256 | A set goes on with room for an entry, or fails without a change when it has to grow and memory is short. |
| `HashMaps.Store` | page-fault-timings/variants/usm/daemon/impl/usm/hashmap.c:257-287 | The set loop ends on every table with an empty bucket. On one in order it returns the replaced item, and leaves a table in order with exactly the old map and the key bound to the new item, exactly when the new key does not crowd the table. |
| `HashMaps.HashMap.SetWithHash` | page-fault-timings/variants/usm/daemon/impl/usm/hashmap.c:247-287 | Refines map update for maps of any size: returns the replaced item, fails only when it had to grow and memory is short and then changes no binding, and otherwise binds the item, under the key and the low 48 bits of the hash, and keeps the invariant exactly when no k neighbouring buckets of the table it works on become home to k + 65535 entries. With 65535 entries stored, the item is then lost. |
| `HashMaps.HashMap.Set` | page-fault-timings/variants/usm/daemon/impl/usm/hashmap.c:293-295 | The same for the map's own hash function. |
| `HashMaps.BackwardShift` | page-fault-timings/variants/usm/daemon/impl/usm/hashmap.c:353-364 | Emptying a bucket and shifting the entries after it back removes exactly that binding and restores the order, round the end of the table too. |
| `HashMaps.HashMap.Shrink` | page-fault-timings/variants/usm/daemon/impl/usm/hashmap.c:366-371 | The shrink after a removal is tried exactly when a tenth of the buckets or fewer are full and the table is larger than the capacity asked for; it leaves the map alone exactly when the smaller table is not crowded, and nothing changes when it is not due or memory is short. |
| `HashMaps.HashMap.DeleteWithHash` | page-fault-timings/variants/usm/daemon/impl/usm/hashmap.c:339-376 | Refines map removal for maps of any size: returns the item, removes exactly the binding of the key and the low 48 bits of the hash and keeps the invariant, unless a shrink follows that crowds the smaller table; in that case, and only then, the invariant is lost. |
| `HashMaps.HashMap.Delete` | page-fault-timings/variants/usm/daemon/impl/usm/hashmap.c:380-382 | The same for the map's own hash function. |
| `HashMaps.ClipMod` | page-fault-timings/variants/usm/daemon/impl/usm/hashmap.c:74 | A clipped hash is the hash modulo 2^48. |
| `HashMaps.SetAndFind` | page-fault-timings/variants/usm/daemon/impl/usm/hashmap.c:247-376 | For every map it does not crowd and all hashes g and h: an item set under g is found, and removed, under h exactly when g and h agree modulo 2^48; otherwise what was bound under h before is. |
| `HashMaps.HashMap.Clear` | page-fault-timings/variants/usm/daemon/impl/usm/hashmap.c:183-200 | From any fields that agree with each other, a table out of order included: the map is empty, the invariant holds, the table grows at three quarters of its buckets, and the capacity is the one asked for, even when no smaller array can be had and the old one is used in part. |
| `LostItem.OneRunWraps` | page-fault-timings/variants/usm/daemon/impl/usm/hashmap.c:263-286 | In any table of more than 65535 buckets, 65535 keys with hash 0 in the first buckets are a table in order that one more such key crowds. |
| `LostItem.LoseItem` | page-fault-timings/variants/usm/daemon/impl/usm/hashmap.c:247-287 | With a hash function that is 0 everywhere, a new map takes 65535 items; the next one is not in the map after it has been set, with no error reported. |
| `HashMaps.HashMap.SetGrowByPower` | page-fault-timings/variants/usm/daemon/impl/usm/hashmap.c:58-60 | The power of growth is clamped to 1..16; the map is not touched. |
| `HashMaps.ShiftSum` | page-fault-timings/variants/usm/daemon/impl/usm/hashmap.c:253 | Growing by a power p doubles the buckets p times: growing by p and then by q is growing by p + q. |
| `HashMaps.HashMap.Count` | page-fault-timings/variants/usm/daemon/impl/usm/hashmap.c:385 | The number of bindings of the map. |
| `HashMaps.HashMap.Iter` | page-fault-timings/variants/usm/daemon/impl/usm/hashmap.c:434-444 | From cursor 0 on, successive calls yield every binding of the map once, and then the end. |
| `HashMaps.HashMap.Scan` | page-fault-timings/variants/usm/daemon/impl/usm/hashmap.c:405-414 | True exactly when the callback accepts every binding of the map. |
| `MergeOrder.MergedSorted` | page-fault-timings/variants/usm/daemon/impl/usm/list_sort.c:16-41 | Merging two sorted sequences, the first all earlier in the input, gives a sequence sorted by the comparator and, where it does not decide, by input position. |
| `MergeOrder.MergedElements` | page-fault-timings/variants/usm/daemon/impl/usm/list_sort.c:16-41 | A merge has the elements of its two inputs, each as often. |
| `MergeOrder.WeakOrderIsComparator` | page-fault-timings/variants/usm/daemon/impl/usm/list_sort.c:102-107 | Every strict weak order is what the sort asks of its comparator. |
| `MergeOrder.SortedIsStable` | page-fault-timings/variants/usm/daemon/impl/usm/list_sort.c:102-107 | For a strict weak order, the result is in order by it, and elements it holds equal are in input order. |
| `Pending.WalkFinds` | page-fault-timings/variants/usm/daemon/impl/usm/list_sort.c:209-212 | The walk down the pending sublists, one for each trailing one of `count`, never leaves them; it ends in front of two sublists of equal size 2^k exactly when a higher bit is set, and otherwise at their end. |
| `Pending.MergeRound` | page-fault-timings/variants/usm/daemon/impl/usm/list_sort.c:209-218 | Merging what the walk found turns the sizes that belong to `count` into those that belong to `count + 1`, but for the new element. |
| `Pending.NextSizes` | page-fault-timings/variants/usm/daemon/impl/usm/list_sort.c:205-225 | The sizes of the pending sublists after a round are the function of `count` that they were before it, for every `count`. |
| `Pending.SixStates` | page-fault-timings/variants/usm/daemon/impl/usm/list_sort.c:157-177 | For every size 2^k, the number of pending sublists of that size and of elements in smaller ones is what the six states say, from bits k and k - 1 of `count`, the bits below and whether higher bits are set. |
| `Pending.TwoPending` | page-fault-timings/variants/usm/daemon/impl/usm/list_sort.c:226-230 | With two elements or more, two sublists or more are pending when the input ends. |
| `Pending.FinalMerges` | page-fault-timings/variants/usm/daemon/impl/usm/list_sort.c:173-177 | The merges at the end of the input, smallest sublist first, are all at worst 2:1. |
| `ListMerge.Merge` | page-fault-timings/variants/usm/daemon/impl/usm/list_sort.c:16-41 | Relinking `next` pointers in place, two null-terminated lists of distinct nodes become one that is their stable merge; the comparator is called only where it is defined. |
| `ListMerge.MergeRelink` | page-fault-timings/variants/usm/daemon/impl/usm/list_sort.c:55-74 | Until one list runs out, the merge is linked both ways from the head on, and the rest of the other list follows in order. |
| `ListMerge.RelinkRest` | page-fault-timings/variants/usm/daemon/impl/usm/list_sort.c:75-93 | The rest gets its `prev` links and the ring is closed on the head. |
| `ListMerge.MergeFinal` | page-fault-timings/variants/usm/daemon/impl/usm/list_sort.c:50-94 | The last merge leaves a well-formed circular doubly linked list of the stable merge. |
| `ListSort.BlockMerge` | page-fault-timings/variants/usm/daemon/impl/usm/list_sort.c:187-203 | Merging two neighbouring blocks of the input, the older first, makes one sorted block of the input. |
| `ListSort.TakenJoin` | page-fault-timings/variants/usm/daemon/impl/usm/list_sort.c:205-218 | The in-loop merge joins two sublists of equal size that are neighbouring blocks of the input, older one first: the comparator sees only pairs in input order. |
| `ListSort.Walk` | page-fault-timings/variants/usm/daemon/impl/usm/list_sort.c:207-210 | The `prev` walk meets no null pointer and ends at the sublists to be merged. |
| `ListSort.MergePair` | page-fault-timings/variants/usm/daemon/impl/usm/list_sort.c:212-218 | The merged sublist takes the place of its two parts in the chain of pending sublists. |
| `ListSort.Push` | page-fault-timings/variants/usm/daemon/impl/usm/list_sort.c:219-224 | One node moves from the input to the front of the pending sublists. |
| `ListSort.Round` | page-fault-timings/variants/usm/daemon/impl/usm/list_sort.c:205-225 | One turn of the loop: the first `count + 1` nodes are in sorted sublists that are blocks of the input, of the sizes that belong to `count + 1`. |
| `ListSort.GatherStart` | page-fault-timings/variants/usm/daemon/impl/usm/list_sort.c:226-228 | At the end of the input at least two sublists remain and the final merges will be balanced. |
| `ListSort.GatherStep` | page-fault-timings/variants/usm/daemon/impl/usm/list_sort.c:229-237 | Each final merge joins neighbouring blocks, older first, neither more than twice as long as the other, and leaves the same true of the rest. |
| `ListSort.MergeAll` | page-fault-timings/variants/usm/daemon/impl/usm/list_sort.c:229-237 | The final merges and the closing one leave a ring that is one sorted block: the whole input. |
| `ListSort.Sort` | page-fault-timings/variants/usm/daemon/impl/usm/list_sort.c:179-238 | For any list and any comparator that is defined at least on earlier-later pairs and whose order with ties broken by position is transitive: the same nodes, sorted and stable, relinked as a well-formed ring. |
| `ListOps.InitListHead` | page-fault-timings/variants/usm/daemon/include/usm/list.h:69-73 | An empty list. |
| `ListOps.ListAddBetween` | page-fault-timings/variants/usm/daemon/include/usm/list.h:81-87 | Linking a node between two neighbours inserts it at that place of the list, the empty list included, where both neighbours are the head. |
| `ListOps.ListAdd` | page-fault-timings/variants/usm/daemon/include/usm/list.h:97-99 | The node becomes the first member. |
| `ListOps.ListAddTail` | page-fault-timings/variants/usm/daemon/include/usm/list.h:109-112 | The node becomes the last member. |
| `ListOps.ListDelBetween` | page-fault-timings/variants/usm/daemon/include/usm/list.h:121-124 | Linking a member's neighbours to each other removes exactly that member. |
| `ListOps.ListDelInit` | page-fault-timings/variants/usm/daemon/include/usm/list.h:142-145 | Removes the member and leaves it an empty list of its own. |
| `ListOps.ListMove` | page-fault-timings/variants/usm/daemon/include/usm/list.h:152-155 | Moves a member to the front of another list, or of its own; both stay well formed. |
| `ListOps.ListMoveTail` | page-fault-timings/variants/usm/daemon/include/usm/list.h:162-166 | Moves a member to the end of another list, or of its own; both stay well formed. |
| `ListOps.ListSpliceInit` | page-fault-timings/variants/usm/daemon/include/usm/list.h:176-210 | The members of one list go, in order, before those of another, and the first is left empty. |
| `PagingRuns.AllocStep` | page-fault-timings/variants/usm/daemon/examples/project-2/alloc/src/policiesSet1.c:285-355 | First allocation, mapping failure included, and the process's own writes keep the paging invariant. |
| `PagingRuns.EvictStep` | page-fault-timings/variants/usm/daemon/examples/project-2/evict/src/policiesSet1.c:974-1037 | Picking a victim, holding it, reclaiming a page of a process that has gone, giving up an address, in memory or in swap, and handling a free event keep the paging invariant if a page that is held is still settled and a page that is freed has not been reclaimed. That a pick is of the front page, and in what order pages leave the used list, is in `PagingQueues`. |
| `PagingRuns.OutStep` | page-fault-timings/variants/usm/daemon/examples/project-2/evict/src/policiesSet1.c:278-406 | Every step of a swap-out keeps the paging invariant, whether it ends in a free page or, retaken, in a free slot; the write does if the file position is still that of its slot, or else if the slot holds the page as it is, or the page has been retaken, and nobody needs what is written over or it is the same. |
| `PagingRuns.CacheFindsPage` | page-fault-timings/variants/usm/daemon/impl/policies/evict/swap.c:34-48 | A fault that finds its address in the swap cache finds the page the address is leaving, not yet reused. |
| `PagingRuns.EntryFindsNode` | page-fault-timings/variants/usm/daemon/include/policies/evict/swap.h:105-121 | A fault that does not, finds through its page-table entry the node whose slot holds its contents. |
| `PagingRuns.FaultStep` | page-fault-timings/variants/usm/daemon/impl/policies/evict/swap.c:34-48 | Finding an entry in the swap cache, marking it, mapping its page again, or missing it and finding the node keep the paging invariant, if the entry is marked before its swap-out ends. |
| `PagingRuns.TakeStep` | page-fault-timings/variants/usm/daemon/examples/project-2/evict/src/policiesSet1.c:435-448 | The seek of a swap-in, taking a page for it, and giving up for want of one keep the paging invariant. |
| `PagingRuns.InStep` | page-fault-timings/variants/usm/daemon/examples/project-2/evict/src/policiesSet1.c:449-518 | The rest of a swap-in keeps the paging invariant, a read that fails included; a read that does not fail, if the file position is that of its slot or of one with the same in it. |
| `PagingRuns.StepKeeps` | page-fault-timings/variants/usm/daemon/examples/project-2/evict/src/policiesSet1.c:278-518 | Every careful step of every interleaving keeps the paging invariant. |
| `PagingRuns.CarelessBreaks` | page-fault-timings/variants/usm/daemon/examples/project-2/evict/src/policiesSet1.c:278-518 | No other step does, from any state: the six kinds of careless step below. |
| `PagingRuns.LateHold` | page-fault-timings/variants/usm/daemon/examples/project-2/evict/src/policiesSet1.c:999-1017 | Holding a page that is no longer settled where its fields say breaks the invariant. |
| `PagingRuns.LateFree` | page-fault-timings/variants/usm/daemon/examples/project-2/alloc/src/policiesSet1.c:693-706 | So does handling the free event of a page that has been reclaimed, ... |
| `PagingRuns.LateMark` | page-fault-timings/variants/usm/daemon/impl/policies/evict/swap.c:39-43 | ... marking an entry of the swap cache whose swap-out has ended, ... |
| `PagingRuns.MisplacedWrite` | page-fault-timings/variants/usm/daemon/examples/project-2/evict/src/policiesSet1.c:335-358 | ... a write of a swap-out that leaves its slot without the page, or puts it over contents that somebody needs, ... |
| `PagingRuns.MisplacedRead` | page-fault-timings/variants/usm/daemon/examples/project-2/evict/src/policiesSet1.c:435-452 | ... a read of a swap-in from a slot with something else in it, ... |
| `PagingRuns.RetriedSwapIn` | page-fault-timings/variants/usm/daemon/impl/com/event.c:46-106 | ... and trying a failed swap-in again as a first allocation. |
| `PagingRuns.RunInv` | page-fault-timings/variants/usm/daemon/examples/project-2/evict/src/policiesSet1.c:278-518 | The paging invariant holds in every state of every careful run. |
| `PagingRuns.CarefulExactly` | page-fault-timings/variants/usm/daemon/examples/project-2/evict/src/policiesSet1.c:278-518 | The runs in which the invariant holds throughout are exactly the careful ones. |
| `PagingSeeks.GuardedCareful` | page-fault-timings/variants/usm/daemon/examples/project-2/evict/src/policiesSet1.c:335-451 | A run in which nobody else seeks or transfers between a seek and its transfer, as nobody can if one lock is held over both, and whose other steps are careful, is careful. |
| `PagingSeeks.NextTransfer` | page-fault-timings/variants/usm/daemon/examples/project-2/evict/src/policiesSet1.c:335-452 | In every run, of two transfers with no seek in between, whoever makes them, the second reads or writes the slot behind that of the first. |
| `PagingSlots.SlotLost` | page-fault-timings/variants/usm/daemon/examples/project-2/evict/src/policiesSet1.c:951-961 | In every careful run, the slot of an address that is given up while it is asleep is never free again. |
| `PagingRaces.EvictedTwice` | page-fault-timings/variants/usm/daemon/examples/project-2/evict/src/policiesSet1.c:995-1001 | From every start with a page and two slots: two evictors that pick the page before either holds it put it on the free list twice, and `usedMemory` is a page too low. |
| `PagingRaces.FreedLate` | page-fault-timings/variants/usm/daemon/examples/project-2/alloc/src/policiesSet1.c:673-709 | From every start with a page: a page that is reclaimed and allocated again before its free event is handled is cleared under the process that has it now, and is mapped and free at once. |
| `PagingRaces.RetakenRun` | page-fault-timings/variants/usm/daemon/impl/policies/evict/swap.c:34-48 | From every start with a page and a slot, a careful run leads to a page retaken from the swap cache. |
| `PagingRaces.MarkedLate` | page-fault-timings/variants/usm/daemon/impl/policies/evict/swap.c:37-43 | From every start with a page and a slot: an entry that is found before its swap-out ends and marked after it gives the address back a page that is free, and the next allocation maps it at a second address. |
| `PagingRaces.CrossedReads` | page-fault-timings/variants/usm/daemon/examples/project-2/evict/src/policiesSet1.c:435-452 | From every start with a page and two slots: two swap-ins that seek one after the other before the first of them reads. The first process finds what the other one wrote. |
| `PagingRaces.CrossedWrite` | page-fault-timings/variants/usm/daemon/examples/project-2/evict/src/policiesSet1.c:335-358 | From every start with a page and two slots: a swap-in that seeks between the seek and the write of a swap-out. The page is written over the slot of the other address, which needs it, and its own slot is left as it was. |
| `PagingRaces.RetriedAfresh` | page-fault-timings/variants/usm/daemon/impl/com/event.c:46-106 | From every start with one page and two slots: a swap-in that finds no page and is tried again after an eviction. The process, which last wrote something else, finds what another one wrote. |
| `PagingRaces.ShownAnew` | page-fault-timings/variants/usm/daemon/examples/project-2/evict/src/policiesSet1.c:394-402 | From every start with a page and a slot, in a careful run: what one process wrote is what another one finds at an address just mapped for it. |
| `PagingRuns.PagingInvisible` | page-fault-timings/variants/usm/daemon/examples/project-2/evict/src/policiesSet1.c:278-518 | In every careful run, whatever is swapped out, retaken or swapped in between, a process that does not write to an address it keeps reads the same there. |
| `PagingRuns.ReadsLastWrite` | page-fault-timings/variants/usm/daemon/examples/project-2/evict/src/policiesSet1.c:278-518 | In every careful run, a process reads at an address what it wrote there last. |
| `PagingRuns.PageConserved` | page-fault-timings/variants/usm/daemon/examples/project-2/alloc/src/policiesSet1.c:673-781 | A page is on exactly one of the free list, the used list and the pages in flight. |
| `PagingRuns.UsedMemoryCounts` | page-fault-timings/variants/usm/daemon/examples/project-2/alloc/src/policiesSet1.c:285-355 | `usedMemory` is 4096 times the number of pages used or in flight. |
| `PagingRuns.SlotConserved` | page-fault-timings/variants/usm/daemon/examples/project-2/evict/src/policiesSet1.c:13-29 | A swap slot is on the free list exactly when no node holds it, and no two nodes hold one slot. |
| `PagingRuns.RunConserves` | page-fault-timings/variants/usm/daemon/examples/project-2/evict/src/policiesSet1.c:376-402 | All of that conservation in every state of every careful run. |
| `PagingQueues.WithoutAt` | page-fault-timings/variants/usm/daemon/include/usm/list.h:121-124 | Taking a page off a list, in any paging step, leaves the members before it and those behind it in their order, as `list_del` does. |
| `PagingQueues.TakesOffExactly` | page-fault-timings/variants/usm/daemon/examples/project-2/evict/src/policiesSet1.c:995-1017 | The steps that take a used page off the used list are exactly its hold or reclaim by the evictor that has picked it, and its free event. |
| `PagingQueues.UsedInOrder` | page-fault-timings/variants/usm/daemon/examples/project-2/evict/src/policiesSet1.c:999-1001 | In every run, of two used pages the one behind is not picked for eviction before the one in front has been taken off the list, unless it has been swapped in again. |
| `PagingQueues.NextVictim` | page-fault-timings/variants/usm/daemon/examples/project-2/evict/src/policiesSet1.c:999-1001 | In every run, once the first used page has been held, reclaimed or freed, the next one picked is the page that stood behind it, unless a page has been swapped in or that one has been taken off, too. |
| `PagingQueues.HoldsWhatItPicked` | page-fault-timings/variants/usm/daemon/examples/project-2/evict/src/policiesSet1.c:999-1001 | In every run, what an evictor holds or reclaims is the page that was first on the used list when it last picked one, and it has neither picked, held nor reclaimed any since. |
| `PagingQueues.PicksInTurn` | page-fault-timings/variants/usm/daemon/examples/project-2/evict/src/policiesSet1.c:974-1037 | In every run, an evictor does not pick a second page before it has held or reclaimed the first. |
| `PagingQueues.FreedTakenNext` | page-fault-timings/variants/usm/daemon/examples/project-2/evict/src/policiesSet1.c:394-402 | In every run, a page freed by a swap-out, a reclaim or a mapping that failed is the next page that is allocated, unless another one is freed so or this one is moved in between. |
| `PagingQueues.FreedTakenLast` | page-fault-timings/variants/usm/daemon/examples/project-2/alloc/src/policiesSet1.c:693-709 | In every careful run, a page freed by a free event, or after a read that failed, is not allocated before the pages that were free then. |
| `PagingQueues.SlotReusedLast` | page-fault-timings/variants/usm/daemon/examples/project-2/evict/src/policiesSet1.c:13-29 | In every careful run, a slot that is given back is used again only after every slot that was free then. |
| `PagingQueues.ReleaseDue` | page-fault-timings/variants/usm/daemon/examples/project-2/evict/src/policiesSet1.c:511-515 | In every careful run, after a swap-in and until it has been done, its node and slot can be given back, and the slot is free then. |
| `PagingQueues.EventsAddUp` | page-fault-timings/variants/usm/daemon/examples/project-2/alloc/src/policiesSet1.c:673-709 | In every run, the free events for a page that are still to be handled are as many as addresses were given up with it, less those that have been handled. |
| `PagingQueues.LabelLast` | page-fault-timings/variants/usm/daemon/examples/project-2/alloc/src/policiesSet1.c:349-355 | In every careful run, the fields of a page name the address it was last allocated or swapped in for, and none once its free event has been handled. |
| `PagingQueues.NewestFound` | page-fault-timings/variants/usm/daemon/impl/policies/evict/swap.c:37-45 | In every run, of two swap-outs in the swap cache for one address a fault finds the one that entered it last. |
| `PagingProgress.FaultServed` | page-fault-timings/variants/usm/daemon/examples/project-2/evict/src/policiesSet1.c:844-871 | In every state the invariant allows, a fault on an address whose page-table entry is a swap entry, asleep or being swapped out, can be served, from the swap cache or from its slot, unless an earlier fault there is. |
| `PagingProgress.HitGoesOn` | page-fault-timings/variants/usm/daemon/impl/policies/evict/swap.c:39-43 | An entry found in the swap cache can be marked and its page mapped again. |
| `PagingProgress.ServiceGoesOn` | page-fault-timings/variants/usm/daemon/examples/project-2/evict/src/policiesSet1.c:427-518 | An allocation or fault service under way can always take its next step, and ends after at most six, a failed swap-in and its second try included: the pointers it follows without a test are there. |
| `PagingProgress.SwapOutGoesOn` | page-fault-timings/variants/usm/daemon/examples/project-2/evict/src/policiesSet1.c:278-406 | A swap-out under way can always take its next step, in the order cache, page table, seek, write, end. |
| `PagingProgress.EvictionStarts` | page-fault-timings/variants/usm/daemon/examples/project-2/evict/src/policiesSet1.c:974-1037 | With a used page and a free slot, a page can be picked and then held or reclaimed, carefully; the used list gets shorter. |
| `PagingProgress.AllocationBegins` | page-fault-timings/variants/usm/daemon/examples/project-2/alloc/src/policiesSet1.c:285-346 | With a free page an allocation can begin at any unused address; if its mapping fails, free list and `usedMemory` are what they were. |
| `PagingProgress.AddressGivenUp` | page-fault-timings/variants/usm/daemon/examples/project-2/evict/src/policiesSet1.c:951-961 | An address that is in memory or in swap can be given up when no swap-out or fault service is at work on it; in memory, that posts one free event for its page. |
| `PagingProgress.EventHandled` | page-fault-timings/variants/usm/daemon/examples/project-2/alloc/src/policiesSet1.c:673-709 | Every posted free event can be handled, and its page is free and clear then. |
| `PagingProgress.GivenUpFor` | page-fault-timings/variants/usm/daemon/impl/com/event.c:46-106 | In every run, a fault on a swapped address is given up only when no page is free, and only after its swap-in has found no free page or nothing to read at the file position. |
| `PagingOrder.SwappedInEvictedFirst` | page-fault-timings/variants/usm/daemon/examples/project-2/alloc/src/policiesSet1.c:770-774 | In every run, the next page picked for eviction after a swap-in is the page just swapped in, unless another one has been or this one has been taken off the used list in between. |
| `PagingOrder.RetakenForGood` | page-fault-timings/variants/usm/daemon/examples/project-2/evict/src/policiesSet1.c:379-390 | In every careful run, a page that has been retaken and that no evictor has picked is on no list and is never picked again, until its address is given up. |
| `PagingOrder.FreshMapping` | page-fault-timings/variants/usm/daemon/examples/project-2/alloc/src/policiesSet1.c:693-706 | In every careful run, a first mapping shows cleared contents exactly when its page last came to the free list by `pindex_free` or was clear then: a page freed by a swap-out, a reclaim or a failed read shows what was on it, whoever had it. |
| `Paging.FindCached` | page-fault-timings/variants/usm/daemon/impl/policies/evict/swap.c:34-48 | The search of the swap cache finds an entry for the address exactly when there is one. |
| `Paging.FindsFirst` | page-fault-timings/variants/usm/daemon/impl/policies/evict/swap.c:37-45 | What the search finds is the first entry for the address: none in front of it is for that address. |
| `SwapDevice.TrySwapCache` | page-fault-timings/variants/usm/daemon/impl/policies/evict/swap.c:34-48 | The loop over the swap cache marks exactly the first entry for the address as retaken, and reports its page. |
| `SwapDevice.InitSwapDeviceNodes` | page-fault-timings/variants/usm/daemon/impl/policies/evict/swap.c:50-76 | A new device is refused exactly for a size that is not a multiple of 4096 or exceeds 2^61, or for want of memory; otherwise every slot is free exactly once, with its own offset, the last slot first. |
| `SwapEntry.ReservedBitsClear` | page-fault-timings/variants/usm/daemon/include/policies/evict/swap.h:127-149 | The low nine bits of an entry are clear, and 50 bits of index and 5 of device can be read back from the rest. |
| `SwapEntry.PackCollides` | page-fault-timings/variants/usm/daemon/include/policies/evict/swap.h:127-149 | Two slots share an entry exactly when they agree in the low 50 bits of the index and the low 5 of the device. |
| `SwapEntry.PackInjective` | page-fault-timings/variants/usm/daemon/include/policies/evict/swap.h:127-149 | Below 2^50 slots and 32 devices, different slots have different entries. |
| `SwapEntry.FaultCarries` | page-fault-timings/variants/usm/daemon/impl/com/com.c:926-927 | The offset a fault carries for slot i of device 0 is 2 MiB times i, in 64-bit arithmetic, for every i. |
| `SwapEntry.FaultFinds` | page-fault-timings/variants/usm/daemon/impl/com/com.c:926-927 | What a fault recovers, for every index and device: the low 38 bits of the index, and as device the five bits above them. |
| `SwapEntry.IndexRoundTrip` | page-fault-timings/variants/usm/daemon/include/policies/evict/swap.h:105-121 | The index comes back exactly when it is below 2^38. |
| `SwapEntry.SlotRoundTrip` | page-fault-timings/variants/usm/daemon/include/policies/evict/swap.h:105-121 | Slot and device come back exactly when the index is below 2^38 and the device is number 0. |
| `SwapEntry.DeviceLost` | page-fault-timings/variants/usm/daemon/include/policies/evict/swap.h:105-121 | Slot 7 of device 1 is taken for slot 7 of device 0. |
| `SwapEntry.AcceptedDistinct` | page-fault-timings/variants/usm/daemon/impl/policies/evict/swap.c:56-57 | On a device of any size that is accepted, no two slots share an entry. |
| `SwapEntry.AllFound` | page-fault-timings/variants/usm/daemon/impl/policies/evict/swap.c:56-57 | All slots of a device are found again exactly when it has at most 2^38. |
| `PreAlloc.RunsRoundTrip` | page-fault-timings/variants/usm/daemon/examples/project-2/alloc/src/policiesSet1.c:135-232 | Decoding the runs gives back the frames, in order; no two neighbouring runs could have been one. |
| `PreAlloc.RunsUnique` | page-fault-timings/variants/usm/daemon/examples/project-2/alloc/src/policiesSet1.c:211-217 | Runs that cannot be joined are the ones the encoder writes: the encoding is canonical. |
| `PreAlloc.RunsFewest` | page-fault-timings/variants/usm/daemon/examples/project-2/alloc/src/policiesSet1.c:211-217 | No list of runs that decodes to the same frames is shorter. |
| `PreAlloc.StaleCount` | page-fault-timings/variants/usm/daemon/examples/project-2/alloc/src/policiesSet1.c:229-231 | As the count of a last run of one frame is not written, the kernel gets the frames back exactly when the last run is longer or its count slot was zero before. |
| `PreAlloc.StaleExample` | page-fault-timings/variants/usm/daemon/examples/project-2/alloc/src/policiesSet1.c:229-231 | Frames 5 and 9 with a 1 left over in the second count slot are taken for 5, 9 and 10. |
| `PreAlloc.PutFrame` | page-fault-timings/variants/usm/daemon/examples/project-2/alloc/src/policiesSet1.c:211-219 | One frame more: the message holds the runs of the frames with it, but for the last count, or the frame begins a run that has no slot. |
| `PreAlloc.ScatterRuns` | page-fault-timings/variants/usm/daemon/examples/project-2/alloc/src/policiesSet1.c:211-217 | Frames no two of which are neighbours make as many runs as there are frames: for every size of message there are pages that do not fit. |
| `PreAlloc.Pool.GetPagesPrep` | page-fault-timings/variants/usm/daemon/examples/project-2/alloc/src/policiesSet1.c:135-232 | For every request and every size of message: of more than nr free pages it takes nr + 1 and returns nr; for nr below 1 it takes two, if there are, and returns 1; otherwise it takes all there are. The first goes to `paddr`, the others into the message as their maximal runs, but for a last count of zero. Exactly when there are more runs than the message has slots, a run is written beyond it; up to then the runs are in it. |
| `PreAlloc.Pool.ConsumePagesAcct` | page-fault-timings/variants/usm/daemon/examples/project-2/alloc/src/policiesSet1.c:90-114 | The pages go to the used list in order, each accounted for, with consecutive addresses. |
| `PreAlloc.LabelledAt` | page-fault-timings/variants/usm/daemon/examples/project-2/alloc/src/policiesSet1.c:94-107 | The i-th page is labelled with the i-th page address of the range, and no other page is touched. |
| `PreAlloc.MappedAsLabelled` | page-fault-timings/variants/usm/daemon/examples/project-2/alloc/src/policiesSet1.c:90-232 | Where the kernel maps the frames it decodes from the runs is where the pool labels them as mapped. |
| `Dispatcher.WorkerKeeps` | page-fault-timings/variants/usm/daemon/impl/usm/sched.c:1240-1366 | Every step of a worker keeps: a pass's events are events of the vCPU, an unfinished user thread has its event, a sleeping worker has none, and state 0 is shown exactly from before its `pause` to after it. |
| `Dispatcher.StepKeeps` | page-fault-timings/variants/usm/daemon/impl/usm/sched.c:1240-1366 | The same for all workers under every interleaving with the kernel and the waker. |
| `Dispatcher.RunSafe` | page-fault-timings/variants/usm/daemon/impl/usm/sched.c:1350-1357 | Over every run, an unfinished user thread keeps its event, and a worker shows state 0 exactly while it is about to `pause`, in it, or just woken. |
| `Dispatcher.PassRunsAll` | page-fault-timings/variants/usm/daemon/impl/usm/sched.c:1287-1364 | When a pass ends it has given control to every event it began with exactly once, in ascending order. |
| `Waiting.CannotPass` | page-fault-timings/variants/usm/daemon/impl/com/waker.c:556-587 | The waker cannot complete a visit of the entry of a worker that stays in `pause` with an event posted. |
| `Waiting.NoLostWakeUp` | page-fault-timings/variants/usm/daemon/impl/com/waker.c:556-587 | In every run with M workers, a worker in `pause` with an event posted is woken before the waker has taken 3M steps. |
| `Waiting.EarlySignalLost` | page-fault-timings/variants/usm/daemon/impl/usm/sched.c:1251-1282 | A signal between the write of state 0 and the `pause` is lost, which is why the scan must go round. |
| `Waiting.BoundedWaiting` | page-fault-timings/variants/usm/daemon/impl/usm/sched.c:1286-1364 | In every run, an event that stays posted is run before its worker has made 3 * 32 - 2 dispatches, 32 being the number of user threads. |
| `Waiting.EventServed` | page-fault-timings/variants/usm/daemon/impl/usm/sched.c:1240-1366 | In every run, an event that stays posted is run before its worker has taken 6 * 32 - 2 steps, from whatever point of its loop it starts, sleep included. |
| `Waiting.NeverStuck` | page-fault-timings/variants/usm/daemon/include/usm/usm.h:721-729 | A worker that is not in `pause` always has a step to take, if the running user thread gives control back. |
| `Waiting.NoSpuriousRun` | page-fault-timings/variants/usm/daemon/impl/usm/sched.c:1350-1357 | In every run, a user thread is given control only for an event that was received and has not been finished with since. |
| `Sleeping.WokenForEvent` | page-fault-timings/variants/usm/daemon/impl/com/waker.c:556-587 | In every run, a worker leaves `pause` only by a signal of the waker, which has read state 0 and then an event at the entry of that worker and has not left the entry since. |
| `Sleeping.SleepsWhenIdle` | page-fault-timings/variants/usm/daemon/impl/usm/sched.c:1251-1282 | In every run, a worker with nothing to do, and for which nothing is posted, is in `pause` after exactly 100003 of its own steps, less the empty rounds it has counted already. |
| `Sleeping.SleepsAfterRounds` | page-fault-timings/variants/usm/daemon/impl/usm/sched.c:1257-1283 | In every run, whatever it serves in between, a worker goes to sleep exactly when it has found nothing to do for the 100001st time since it was started or last woken. |
| `Sleeping.PostedExactly` | page-fault-timings/variants/usm/daemon/impl/usm/sched.c:1242-1248 | What can stand at an entry of the watch list is any set of the 32 events of a word, and nothing else. |
| `Sleeping.RunOnceOrTwice` | page-fault-timings/variants/usm/daemon/impl/usm/sched.c:1286-1364 | In every run, an event a worker has after a receive is run once or twice before the next receive, and twice if it is still there then. |
| `Sleeping.UnfinishedExactly` | page-fault-timings/variants/usm/daemon/impl/usm/sched.c:1320-1357 | In every run, the user threads in state 1 are exactly those that have been given control and have not finished since. |
| `Sleeping.YieldsToOthers` | page-fault-timings/variants/usm/daemon/include/usm/usm.h:721-729 | A user thread may give up control unfinished exactly when its worker has another event. |
| `DmaSplit.SplitTiles` | ufault-patches/0005-uffd-dax-patch.patch:1159-1190 | The requests of a copy tile it: no gap, no overlap, all but the last of the full request size and the last not longer, the same distance from source to target. |
| `DmaSplit.SplitCount` | ufault-patches/0005-uffd-dax-patch.patch:1122-1129 | The number of requests of a copy is its share of `expect_count`, for every length and request size. |
| `DmaSplit.ChunkStays` | ufault-patches/0005-uffd-dax-patch.patch:1162-1167 | A request stays inside its copy exactly when its end does not wrap in 64 bits. |
| `DmaSplit.ChunksStay` | ufault-patches/0005-uffd-dax-patch.patch:1162-1167 | All requests of a copy stay inside it exactly when its length, rounded up to whole requests, is below 2^64. |
| `DmaSplit.SubmitCopy` | ufault-patches/0005-uffd-dax-patch.patch:1159-1190 | For every 64-bit length the loop submits exactly the tiling, or, exactly when the length rounded up to whole requests reaches 2^64, goes along the tiling up to a request that runs over the end of the copy. |
| `DmaSplit.OverrunExample` | ufault-patches/0005-uffd-dax-patch.patch:1144-1160 | A copy of all addresses but the last page, from 0 to 0, passes the tests of alignment and wrap-around; with requests of 2 MiB it overruns. |
| `DmaSplit.SubmitBatch` | ufault-patches/0005-uffd-dax-patch.patch:1135-1191 | Every copy of the batch is tiled, in order, exactly when no length rounded up to whole requests reaches 2^64. |
| `DmaSplit.ExpectCount` | ufault-patches/0005-uffd-dax-patch.patch:1122-1129 | `expect_count` is the number of requests that will be submitted for the batch. |
| `DmaWait.ConditionExact` | ufault-patches/0005-uffd-dax-patch.patch:919-930 | In every state of every run of every batch, the condition the submitter waits for holds, and lets it go on, exactly when the callback of every request has run. |
| `DmaWait.AnyOrder` | ufault-patches/0005-uffd-dax-patch.patch:1159-1193 | Whatever has been submitted can be transferred next, in any order, and then called back; a wait can be interrupted at any time. |
| `DmaWait.LengthSum` | ufault-patches/0005-uffd-dax-patch.patch:1197-1199 | The reported length of one copy is its length, and that of two batches after each other the sum of theirs. |
| `DmaWait.RequestsLength` | ufault-patches/0005-uffd-dax-patch.patch:1159-1199 | The lengths of the requests of a batch add up to that of the batch. |
| `DmaWait.ReleasedComplete` | ufault-patches/0005-uffd-dax-patch.patch:1193 | For every batch, overlapping or not, and every order of callbacks: the submitter is released only after every request has been transferred and its callback has run. |
| `DmaWait.RequestsApart` | ufault-patches/0005-uffd-dax-patch.patch:1159-1190 | If no copy of a batch is read or written where another is written, neither are its requests. |
| `DmaWait.Delivered` | ufault-patches/0005-uffd-dax-patch.patch:1135-1193 | In every run, whatever the order of transfers and callbacks, when the submitter is released and when it returns after that, memory is what doing each copy in one go would have made it, and untouched elsewhere. |
| `DmaWait.InterruptedEarly` | ufault-patches/0005-uffd-dax-patch.patch:1193-1211 | For every batch and memory there is a run in which a signal makes the submitter return the sum of the lengths of the copies with nothing copied. |
| `DmaWait.ReportExact` | ufault-patches/0005-uffd-dax-patch.patch:1193-1211 | In every run in which the submitter has returned, it has reported the sum of the lengths of the copies, which is that of the requests; that much is in memory exactly when every request has been transferred by then or would change nothing, which is so if it was not interrupted. |

## Left out

- HashMaps.HashMap.Resize: admissible capacities are those at least the user's capacity that hold the entries at the load limit; the callers ask for no other.
- What `hashmap_get`, `hashmap_set` and `hashmap_delete` do on a table that a crowded operation has left out of order: only `hashmap_clear` is claimed for it.
- The 64-bit range of capacities and of `count` in the hash map and the sort: they are unbounded here.
- The floating-point load thresholds of the hash map: as the number of buckets is a power of two they are the integer floors of 3n/5, 3n/4 and n/10, which is what is modelled.
- SipHash, Murmur and xxHash: the map is proved for any hash function.
- `hashmap_probe`, `hashmap_free`, the element-free callback and the spare buffers of the hash map: items are values here.
- `list_del` and its poison values, and the other macros of `list.h`.
- PagingRuns.PagingInvisible: some steps are coarser than in the code: holding a page, the test for its process and getting a node and a slot; missing an address in the swap cache and finding its node; the test for a retaken page and the end of the swap-out; setting the fields of a page, or clearing it, and putting it on a list.
- PagingRuns.StepKeeps: assumes that an address is not given up while a swap-out or a fault service is at work on it, nor between its mapping and the linking of its page to the used list; that one fault at a time is in service for an address; and that an evictor finds the process of a page gone exactly when the page's address has been given up.
- PagingRuns.RunConserves: lists and the fields of nodes are values, a change of a list is one step, and one swap device is modelled. That takes for granted what the code does not ensure: `pindex_free` takes a page off the used list under the lock of the free list (alloc policiesSet1.c:698-701) where allocation, hold and restore change it under its own, and `swap_out` takes its node out of the swap cache without a lock (evict policiesSet1.c:376). That the list operations do to a sequence of members what the steps do to theirs is proved in `ListOps` and `PagingQueues.WithoutAt`.
- PagingRaces.EvictedTwice: a page that is added to a list it is on is twice in the sequence here; the links of the code's list are broken by that.
- The failing exits of `swap_out` and those of `swap_in` but for want of a page and a read beyond the slots: requests to the kernel and file operations succeed, but for the mapping of a first allocation.
- The swap cache is one list searched by process and address, where the code keeps one for each process.
- The retry driver of `event.c` but for the swap cache, the swap-in and its second try as an allocation. After a hit in the swap cache it also evicts a page and tries an allocation, which the kernel refuses as the address is mapped.
- `basic_alloc` after a failed submission, `basic_free` and the per-process counters.
- PreAlloc.Pool.GetPagesPrep: takes its pages from the free list without another thread taking some in between; the encoding is proved for any sequence of pages.
- The kernel's side of the memory channel, its handshake and how it tells the number of runs: not part of this model.
- SwapEntry.Pack: slots are packed by index, the offset over the page size, as in the code; how the kernel keeps an entry is not modelled.
- The registration of workers with the waker: the watch list is fixed. User interrupts, time slices and the `IUTHREAD` variant are not modelled.
- Waiting.EventServed: counts the steps of the worker; that a worker, and a dispatched user thread, gets to run is up to the scheduler of the machine.
- The sum `expect_count` is unbounded here; the choice of the DMA channel, failing preparations and submissions, and the page walk are not modelled.
- `policiesSet1BP.c`, the periodic swappers, `soldiers`, configuration, ioctl and signal plumbing, the kernel module, benchmarks and packaging.
