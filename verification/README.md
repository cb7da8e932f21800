# COFUOS kernel: memory, threads, timers, disk cache and file chains

A Dafny model of the parts of the COFUOS kernel that keep shared state by hand. The
kernel states most of what is proved here as asserts and `check_integrity` routines;
the model proves those statements, and the ones they rest on, for every input and every
run. Classes hold the fields the kernel updates, methods change them in the same order
and along the same branches, and every method is tied to the meaning of what it does.

| module | kernel files | subject |
|---|---|---|
| PhysicalMemory | kernel/memory/pm.cpp | page frames, the free and solid bits, frames set aside |
| PageTables | kernel/memory/vm.cpp | one page table with the list of its free runs kept inside the unused entries |
| UserSpaces | kernel/memory/vm.cpp, kernel/memory/user_vspace.cpp | a whole user space: reserve, commit, protect, release, destruction |
| SpaceFamilies | kernel/memory/user_vspace.cpp | all the user spaces that share the page allocator |
| PowersOfTwo, BuddyLists, BuddyHeaps | util/include/buddy_heap.hpp | the buddy heap; its lists as sequences, then the linked nodes |
| Timers | kernel/dev/timer.cpp | the delta queue against a list of absolute deadlines |
| ThreadQueues, Scheduler | kernel/process/waitable.cpp, thread.cpp, core_state.cpp | the one link field all queues share, and every step in the life of a thread |
| DiskCaches | kernel/dev/disk_interface.cpp | the write-back sector cache against a plain disk |
| ClusterChains | kernel/filesystem/exfat.cpp | the cached FAT walk, the bitmap allocator, growing a file |
| Locks, Pipes | kernel/sync/rwlock.cpp, semaphore.cpp, pipe.cpp | sleeping locks and the pipe |
| Counterexamples | several of these | runs from the constructors on in which the kernel does less than expected; those of the scheduler are in its module |

Cluster chains follow section 4.1, and the allocation bitmap section 7.1.5, of the Microsoft
exFAT specification.

## Main results

- A page table keeps its list of free runs exact under reserve, release and insertion from
  any hint: each maximal run once, ascending, the 4-bit field the rounding of the largest.
- Reserving and committing in a user space are all or nothing over any number of tables.
  After frames are set aside the second phase cannot fail. No frame is ever in two places of
  a space, nor, in any run of calls, in two spaces, and destroying a space gives every frame
  back once.
- The lists of the buddy heap are a function of the set of free addresses, so the order of
  releases leaves no trace and releasing what was just allocated restores the lists.
- The timer's differences mean absolute deadlines; a step calls exactly what is due, once
  and in order, and two steps are one long step.
- In every run of the scheduler each thread is in the one place its state dictates, and a
  stopped thread reaches the collector once. The thread chosen next has no thread that could
  run ahead of it, in a better queue or nearer to the head of its own, and exactly the
  stopped threads ahead of it go to the collector. As long as the collector sleeps nothing
  new comes to its queue; its way to sleep is another matter (see below).
- The disk cache shows a plain disk at all times, whatever is evicted, flushed or fails.
- The cached walk of a file is the plain walk, and growing one file harms no other.

## Where the code does less than one might expect

Each of these is proved as an exact condition.

- `reserve_any` and `reserve_big` compute the address they return in 32 bits
  (kernel/memory/vm.cpp:678, 787). The answer is right exactly for pages below 4 GB. A
  result that comes out as 0 counts as a failure, and the pages found stay reserved
  (`UserSpaces.ToldWhere`, `UserSpaces.ToldIs`, `UserSpaces.UserSpace.ReserveAny`; a run in
  `Counterexamples.AddressIsWrong`).
- The 4-bit size field rounds down, so a table can refuse a request that one of its runs
  could serve: a largest run of 63 entries counts as 32. It refuses exactly if no run is
  large enough after rounding (`PageTables.FieldIsExactFor`,
  `PageTables.PageTable.FieldIsCramped`).
- Abandoning an object that threads wait for always ends in the "wait_queue corrupted"
  bugcheck: the queue is detached first, and then each thread is looked up in it
  (kernel/process/waitable.cpp:74-81 and 175-201, kernel/process/thread.cpp:105-107). It is
  safe exactly if nobody waits (`Scheduler.Kernel.NotifyAll`; a run in
  `Scheduler.AbandonedWaiterCrashes`).
- The collector can fall asleep with work in its queue. A waiting thread that is killed goes
  to that queue at once, and the signal that follows wakes whoever waits for the collector's
  event. If the collector has looked at its queue, or not yet started, and does not wait yet,
  that is nobody, and it then waits without another look (kernel/process/core_state.cpp:299-325,
  kernel/process/thread.cpp:286-300). When it goes to sleep it leaves work behind exactly if its
  queue is not empty and no thread was left behind by the switch before
  (`Scheduler.Kernel.Suspend`; a run in `Scheduler.CollectorOversleeps`).
- On its way to sleep the collector can also end in the "spinlock timeout" bugcheck. It holds
  the lock of its event until the switch; a stopped thread that the search meets makes it
  signal that event, which takes the same lock (kernel/process/waitable.cpp:83-132,
  kernel/sync/event.cpp:24-35, kernel/sync/spin_lock.cpp:35-41). A thread that waits for the
  end of the collector's thread while that sleeps runs into the lock of that thread in the
  same way. It happens exactly if a stopped thread stands ahead of the thread that runs next,
  and that thread is not the collector (`Scheduler.Kernel.Suspend`; a run in
  `Scheduler.CollectorSpins`).
- `expand(0)` on a chain of one cluster adds a second one. On a longer chain it returns
  false after marking a cluster that then belongs to no chain
  (`ClusterChains.ClusterChain.Expand`, `ClusterChains.ClusterChain.AddCluster`; runs in
  `Counterexamples.ExpandAddsOne` and `Counterexamples.ExpandLeaks`). The one caller
  (kernel/filesystem/instance.cpp:48-57) expands to an index only after `get` found nothing
  there, so today it takes two callers that race for the first cluster, or a new caller.
- The cluster allocator does not look at bits between the start of the hint's sector and
  the hint, so a bit freed there is not found and it can fail with free clusters left
  (`ClusterChains.FreedBitIsMissed`, `ClusterChains.Volume.AllocGet`).
- The room of a pipe is computed in 32 bits and is right at every position exactly for
  buffers of at most 2^31 bytes; it never comes out too large (`Pipes.RoomIsExact`).
- A semaphore signalled at a count of 2^32 - 1 starts over from 0
  (`Locks.Semaphore.Signal`; a run in `Counterexamples.SignalTakesAll`).

## Model

| member | source | states |
|---|---|---|
| PhysicalMemory.PM.Allocate | kernel/memory/pm.cpp:165-235 | in ordinary mode fails exactly when used + reserved + limit reaches the total, changing nothing; otherwise takes the highest free page of the first group, going round from `next`, that has one, and `next` is that group; the counters and the solid bits stay right |
| PhysicalMemory.PM.ChooseGroup | kernel/memory/pm.cpp:172-191 | while any page is free the group scan ends at the first group from `next` on that has one, so its bugcheck is out of reach |
| PhysicalMemory.PM.HighestFree | kernel/memory/pm.cpp:193-214 | the binary search over solid bits lands on the highest free page of the group |
| PhysicalMemory.PM.TakePage | kernel/memory/pm.cpp:213-224 | clearing one free bit and setting solid bits downwards keeps "solid exactly when nothing above is free" for every entry |
| PhysicalMemory.PM.SetSolidBelow | kernel/memory/pm.cpp:217-224 | the loop sets solid bits downwards to the first free page, or to the start of the group, and changes no free bit |
| PhysicalMemory.PM.Reserve | kernel/memory/pm.cpp:237-245 | succeeds exactly when the pages and the limit still fit, and then sets that many aside |
| PhysicalMemory.PM.Release | kernel/memory/pm.cpp:247-274 | the page is free again, one less is used, the invariant holds |
| PhysicalMemory.PM.ClearSolidBelow | kernel/memory/pm.cpp:263-268 | the loop clears solid bits downwards to the first entry that was not solid, and no free bit |
| PhysicalMemory.PM.CheckIntegrity | kernel/memory/pm.cpp:293-319 | the self check passes exactly when every solid bit tells the truth and free plus used pages make the total |
| PhysicalMemory.PM.CheckGroup | kernel/memory/pm.cpp:297-316 | the check of one group passes exactly when all its solid bits tell the truth, and counts its free pages |
| PhysicalMemory.PM.FreeExists | kernel/memory/pm.cpp:186-189 | as long as used is below the total some page is free |
| PhysicalMemory.SolidUpward | kernel/memory/pm.cpp:193-203 | truthful solid bits are monotone within a group, which is what the binary search needs |
| PhysicalMemory.GroupExhausted | kernel/memory/pm.cpp:178-183 | the first entry of a group is solid and used exactly when the whole group is used |
| PhysicalMemory.PM.RepairedAfterTake | kernel/memory/pm.cpp:217-224 | the downward loop of an allocation restores every solid bit |
| PhysicalMemory.PM.RepairedAfterRelease | kernel/memory/pm.cpp:263-268 | the downward loop of a release restores every solid bit |
| PageTables.GetUndoesPut | kernel/memory/vm.cpp:60-161 | reading a maximal run back through any of its entries gives what was written: self, size, next, and the previous link unless the run has one entry |
| PageTables.GetRecovers | kernel/memory/vm.cpp:60-121 | from any entry of a written maximal run the record of the run is recovered |
| PageTables.PageTable.Put | kernel/memory/vm.cpp:123-162 | writes the tags of one run and no other entry |
| PageTables.PageTable.ReadRun | kernel/memory/vm.cpp:60-121 | in a valid table any entry of a listed run yields that run and its neighbours in the list |
| PageTables.PageTable.ResolvePrior | kernel/memory/vm.cpp:164-187 | finds the previous run of any listed run, walking the list only for runs of one entry, and never reaches the bugcheck |
| PageTables.FieldLaws | kernel/memory/vm.cpp:190-209 | the 4-bit field never overstates a size, loses at most half, is 0 only for 0 and 0x200 only for 0x200 |
| PageTables.EncodeMonotone | kernel/memory/vm.cpp:198-209 | rounding keeps the order of sizes |
| PageTables.EncodeDecode | kernel/memory/vm.cpp:190-209 | encoding what the field stands for gives the field back |
| PageTables.FieldStable | kernel/memory/vm.cpp:211-239 | any value between the field and the true maximum encodes to the same field, so the update in erase is exact |
| PageTables.FieldIsExactFor | kernel/memory/vm.cpp:190-209 | exactly which sizes are not rounded down; a largest run of 63 entries is taken for 32 |
| PageTables.PageTable.Erase | kernel/memory/vm.cpp:211-239 | the run leaves the list, all others keep their place and records, head and field stay exact |
| PageTables.PageTable.FindPlace | kernel/memory/vm.cpp:241-299 | from any hint, shifting left or right, the place found keeps the list ascending, and is the nearest to the hint that does |
| PageTables.PageTable.ShiftLeft | kernel/memory/vm.cpp:267-281 | moving left ends at a place that fits the size |
| PageTables.PageTable.ShiftRight | kernel/memory/vm.cpp:282-295 | moving right ends at a place that fits the size |
| PageTables.PageTable.LinkIn | kernel/memory/vm.cpp:300-325 | linking at that place adds exactly this run, relinks both neighbours and sets head and field |
| PageTables.PageTable.Insert | kernel/memory/vm.cpp:241-326 | from any valid hint the maximal run is added once, in order of size; an empty one changes nothing |
| PageTables.PageTable.ListsMaximalRuns | kernel/memory/vm.cpp:329-385 | the list from head holds exactly the maximal runs of unused entries, each once, and the field bounds the largest |
| PageTables.PageTable.FieldIsExactAtEnds | kernel/memory/vm.cpp:190-209 | the field says 0x200 exactly for a wholly unused table and 0 exactly for a full one |
| PageTables.PageTable.FieldIsCramped | kernel/memory/vm.cpp:388-393 | the field refuses a request exactly when no run is that large after rounding |
| PageTables.PageTable.ReserveAny | kernel/memory/vm.cpp:388-418 | refuses exactly when no run is large enough after rounding; else reserves the end of the smallest run that fits, and the bugcheck is out of reach |
| PageTables.PageTable.ReserveFixed | kernel/memory/vm.cpp:420-458 | succeeds exactly when all requested entries are unused, reserves them and nothing else, and changes nothing on refusal |
| PageTables.PageTable.Release | kernel/memory/vm.cpp:460-533 | the entries become unused, with their attributes as they were, runs are merged with both neighbours, and exactly the mapped frames go back, each once |
| PageTables.PageTable.constructor | kernel/memory/vm.cpp:629-650 | a new table is one run of 0x200 unused entries, all zero but for the tags of the run |
| PageTables.PageTable.Overwrite | kernel/memory/user_vspace.cpp:151-160 | rewriting an entry in use keeps the list of unused runs valid |
| UserSpaces.UserSpace.constructor | kernel/memory/user_vspace.cpp:11-32 | three frames, the entry of the lowest 2 MB set aside, three pages used |
| UserSpaces.UserSpace.NewDirectory | kernel/memory/vm.cpp:610-627 | takes one free frame for the directory or, exactly when memory is short, changes nothing |
| UserSpaces.UserSpace.NewTable | kernel/memory/vm.cpp:629-650 | a new table changes the state and the attributes of no page; it fails exactly when memory is short, and with frames set aside it cannot |
| UserSpaces.UserSpace.Iterate | kernel/memory/vm.cpp:535-581 | counts the pages from the start that pass the callback, up to the first that does not |
| UserSpaces.UserSpace.ReserveAny | kernel/memory/vm.cpp:652-685 | reserves free pages at the end of the best fitting run of the first table that can serve; fails only after all tables, or at a directory that cannot be made; because addresses are computed in 32 bits the answer is right exactly if a table below 4 GB has room, and pages found at an address that comes out as 0 stay reserved while the search goes on |
| UserSpaces.UserSpace.ReserveAnyStep | kernel/memory/vm.cpp:666-682 | one table of that search: finds room exactly if the table has it, at the end of the run that fits best, and touches no other table |
| UserSpaces.UserSpace.SearchTable | kernel/memory/vm.cpp:666-682 | one round of the search of reserve_any: found, lost at an address that comes out as 0, or on to the next table |
| UserSpaces.ToldIs | kernel/memory/vm.cpp:678-681 | the address told is the true one modulo 4 GB, and comes out as 0 only above 4 GB |
| UserSpaces.ToldWhere | kernel/memory/vm.cpp:678 | the address told is the true one exactly for pages below 4 GB |
| UserSpaces.UserSpace.ReserveFixed | kernel/memory/vm.cpp:687-746 | across any number of tables and directories all pages become reserved or, after the rollback, every page is as before; it refuses only if the range cannot be had, or memory is short and a table of the range is missing |
| UserSpaces.UserSpace.ReserveRounds | kernel/memory/vm.cpp:701-739 | the loop reserves page by page from the base up to the first obstacle |
| UserSpaces.RolledBack | kernel/memory/vm.cpp:742-745 | reserving a free range and releasing it restores the map of page states |
| UserSpaces.UserSpace.ReserveBig | kernel/memory/vm.cpp:748-814 | reserves exactly the pages asked for, in the first directory that can serve and there in the first stretch of wholly free tables that is long enough; a directory is passed over exactly for want of a stretch or of frames for its missing tables; the address told is right exactly below 4 GB |
| UserSpaces.UserSpace.ScanDirectory | kernel/memory/vm.cpp:761-782 | finds the first stretch of enough wholly free tables, or tells that there is none, and counts those still to be made |
| UserSpaces.UserSpace.FillTables | kernel/memory/vm.cpp:789-809 | with the frames set aside every table can be made, and all of them are used up |
| UserSpaces.UserSpace.SafeRelease | kernel/memory/vm.cpp:816-858 | all pages of the range become free and exactly the frames they were mapped to go back |
| UserSpaces.UserSpace.Reserve | kernel/memory/user_vspace.cpp:92-115 | at a fixed address all or nothing; anywhere, in the first table or directory that can serve, with the right answer exactly below 4 GB; when and why it refuses; no other page changes in state, frame or attributes |
| UserSpaces.UserSpace.Release | kernel/memory/user_vspace.cpp:117-134 | succeeds exactly on a range of reserved or committed pages; then all are free and their frames given back, else nothing changes; no other page changes in state, frame or attributes |
| UserSpaces.UserSpace.Commit | kernel/memory/user_vspace.cpp:136-165 | succeeds exactly if all pages are reserved and memory suffices; then every page has a frame of its own and is writable, not executable and open to the user, its other attributes as before; no other entry changes; else nothing changes |
| UserSpaces.UserSpace.CommitRange | kernel/memory/user_vspace.cpp:151-163 | the second pass cannot fail and takes exactly the frames set aside |
| UserSpaces.UserSpace.Protect | kernel/memory/user_vspace.cpp:167-196 | if all pages are committed each of their entries has the attributes given, but its own pat, frame and marks; no other entry changes; else nothing changes |
| UserSpaces.ChecksMean | kernel/memory/user_vspace.cpp:123-145 | what the entry checks of release, commit and protect say about the state of a page |
| UserSpaces.UserSpace.FramesAreExclusive | kernel/memory/vm.cpp:511-527 | no frame is mapped twice, none is free or also a table, a directory or a top table |
| UserSpaces.UserSpace.UsedPagesIsCensus | kernel/memory/user_vspace.cpp:163 | used_pages is two plus directories plus tables plus committed pages |
| UserSpaces.CensusOf | kernel/memory/vm.cpp:610-650 | the owned frames are counted by kind |
| UserSpaces.UserSpace.Destroy | kernel/memory/user_vspace.cpp:34-70 | gives back every frame the space owns, each once, used_pages in all; the double release bugcheck is out of reach |
| SpaceFamilies.OwnersStep | kernel/memory/pm.cpp:165-274 | when one owner takes free frames or gives some back, no frame gets two owners and all together own no more than is in use |
| SpaceFamilies.EachIsValid | kernel/memory/user_vspace.cpp:11-70 | each space of the kernel keeps its own invariant, and no frame of one belongs to another |
| SpaceFamilies.PerformIn | kernel/memory/user_vspace.cpp:92-196 | a call of one space changes no page and no frame of any other, and keeps them all valid and apart |
| SpaceFamilies.RunAll | kernel/memory/user_vspace.cpp:92-196 | the same after any run of calls, each to any space: all stay valid and apart, and no page and no frame of a space that is not called changes |
| SpaceFamilies.Create | kernel/memory/user_vspace.cpp:11-32 | a new space joins the others, none of which changes |
| SpaceFamilies.Dispose | kernel/memory/user_vspace.cpp:34-70 | a destroyed space gives back all its frames, and no other space changes |
| BuddyLists.InsideOne | util/include/buddy_heap.hpp:71-147 | a wholly free aligned block lies inside one listed block |
| BuddyLists.ListedIffMaximal | util/include/buddy_heap.hpp:93-147 | a block is listed exactly if it is wholly free and the block of twice its size is not |
| BuddyLists.Canonical | util/include/buddy_heap.hpp:93-147 | the lists are a function of the set of free addresses alone |
| BuddyLists.BuddyIsNeighbour | util/include/buddy_heap.hpp:100-117 | in the sorted list the buddy of a block can only stand right before or right after its place |
| BuddyLists.PickedIsBuddy | util/include/buddy_heap.hpp:112-117 | whatever the exclusive-or test picks is the other half of one aligned block |
| PowersOfTwo.XorFindsBuddy | util/include/buddy_heap.hpp:112-117 | aligned blocks differ in the one bit of their size exactly if they are the halves of one block |
| BuddyLists.OrderDoesNotMatter | util/include/buddy_heap.hpp:182-190 | the same blocks released in any order leave identical lists |
| BuddyLists.TakeThenGive | util/include/buddy_heap.hpp:164-190 | giving back what was taken restores the very same lists |
| BuddyHeaps.Category | util/include/buddy_heap.hpp:24-40 | the least order that holds the size, top if none does |
| BuddyHeaps.CategoryAt | util/include/buddy_heap.hpp:42-56 | the largest order that can start at the address within the length |
| BuddyHeaps.BuddyHeap.FindPlace | util/include/buddy_heap.hpp:98-107 | the loop stops at the place of the block in the sorted list |
| BuddyHeaps.BuddyHeap.Put | util/include/buddy_heap.hpp:93-147 | refuses exactly misaligned blocks; else the free bytes grow by exactly the block, the lists stay sorted, disjoint and coalesced, and only free blocks are written to |
| BuddyHeaps.BuddyHeap.Get | util/include/buddy_heap.hpp:71-92 | returns the lowest block of the first list that can serve, splits it, and frees less by exactly the block returned; null exactly if no list can serve |
| BuddyHeaps.BuddyHeap.Expand | util/include/buddy_heap.hpp:191-220 | every whole unit of the range becomes free once, and the capacity grows by just that |
| BuddyHeaps.BuddyHeap.Allocate | util/include/buddy_heap.hpp:164-181 | a block of the least order, apart from all blocks in use; the expander is asked exactly while no block serves, each time for at least the size, the capacity and 16 KB, until an answer is of no use; after one region that starts with a block of the largest size no second retry is needed |
| BuddyHeaps.BuddyHeap.Release | util/include/buddy_heap.hpp:182-190 | gives back exactly the block; null, oversized and misaligned arguments change nothing |
| BuddyHeaps.BuddyHeap.AllocateThenRelease | util/include/buddy_heap.hpp:164-190 | allocating without expansion and releasing restores the exact lists |
| BuddyHeaps.BuddyHeap.ReleaseAll | util/include/buddy_heap.hpp:182-190 | a sequence of releases gives back exactly its blocks |
| BuddyHeaps.AccountTake | util/include/buddy_heap.hpp:164-181 | an allocation keeps free plus live bytes equal to the capacity and live blocks disjoint |
| BuddyHeaps.AccountGive | util/include/buddy_heap.hpp:182-190 | a release keeps the same account |
| BuddyHeaps.RoomyServes | util/include/buddy_heap.hpp:173-180 | once a region with a largest block is added every order can be served |
| Timers.Timer.Wait | kernel/dev/timer.cpp:83-102 | a fresh ticket, called by exactly the steps of at least us / 1000 ticks (at least 1), before all that is due at the same time or later; once if it is a one-shot, else next that many ticks after its first deadline; no other call of any step changes |
| Timers.Timer.Cancel | kernel/dev/timer.cpp:104-111 | true exactly if some later step could still have called the ticket; then no step calls it any more, and all other calls are as before |
| Timers.Timer.Step | kernel/dev/timer.cpp:113-162 | does on the differences what the step means on absolute deadlines, and makes exactly the calls of that step |
| Timers.Timer.FireDue | kernel/dev/timer.cpp:118-143 | the first loop calls and sets aside exactly what is due |
| Timers.Timer.PutNode | kernel/dev/timer.cpp:144-161 | putting a node in moves no other deadline |
| Timers.FiresExactly | kernel/dev/timer.cpp:118-143 | a step calls exactly the due tickets that are not cancelled, each once, in order of deadlines |
| Timers.SteppedAlarms | kernel/dev/timer.cpp:113-162 | after a step there are exactly the alarms not due and the repeating ones that fired, armed for deadline plus period but not for the past |
| Timers.RearmedGoFirst | kernel/dev/timer.cpp:143-161 | a repeating alarm that fired goes before all alarms of its new time that were not due, and two of them keep their order |
| Timers.WaitedMeans | kernel/dev/timer.cpp:83-102 | what a new alarm changes in the calls of every later step |
| Timers.RecordLoses | kernel/dev/timer.cpp:125-138 | the record loses exactly the one-shot tickets that fired |
| Timers.CancelTellsWhetherItCouldFire | kernel/dev/timer.cpp:104-111 | a ticket is in the record exactly if it could still fire |
| Timers.StepsAddUp | kernel/dev/timer.cpp:113-162 | for one-shot tickets two steps are one long step: same queue, record and callbacks |
| Timers.RunsStayGood | kernel/dev/timer.cpp:83-162 | in every run deadlines stay ordered, tickets unique and every uncancelled ticket has its node |
| Timers.DeadTicketsStaySilent | kernel/dev/timer.cpp:104-138 | in every run a cancelled or spent ticket is never called again |
| Timers.OneShotsFireOnce | kernel/dev/timer.cpp:133-138 | in every run a one-shot ticket is called at most once |
| ThreadQueues.PutLayout | kernel/process/waitable.cpp:20-31 | putting a thread behind the tail through the shared link keeps all queues intact |
| ThreadQueues.GetLayout | kernel/process/waitable.cpp:33-50 | taking the head keeps all queues intact |
| ThreadQueues.UnlinkLayout | kernel/process/waitable.cpp:183-199 | taking a thread out of the middle keeps all queues intact |
| ThreadQueues.ClearLayout | kernel/process/waitable.cpp:77-78 | detaching a queue leaves its threads linked to each other and in no queue |
| Scheduler.Kernel.constructor | kernel/process/thread.cpp:15-19 | at boot one thread runs and every queue is empty |
| Scheduler.Kernel.QueuePut | kernel/process/waitable.cpp:20-31 | first in, first out, on the shared links |
| Scheduler.Kernel.QueueGet | kernel/process/waitable.cpp:33-50 | the head, or null exactly for an empty queue |
| Scheduler.Kernel.Cancel | kernel/process/waitable.cpp:175-202 | takes the thread out exactly if it is in the queue; else the queue counts as corrupted |
| Scheduler.Kernel.SetReady | kernel/process/thread.cpp:94-126 | a stopped thread is refused; a waiting one loses object and ticket; an abandoned one that is off its queue meets the bugcheck |
| Scheduler.Kernel.EndWait | kernel/process/thread.cpp:98-124 | a notified thread loses its timer, one whose time is up leaves its queue, an abandoned one is not found |
| Scheduler.Kernel.SetRunning | kernel/process/thread.cpp:127-129 | refuses exactly stopped threads |
| Scheduler.Kernel.BeginWait | kernel/process/waitable.cpp:117-128 | the thread waits last in the queue of the object, with a ticket exactly if there is a time limit |
| Scheduler.Kernel.OnStop | kernel/process/thread.cpp:161-184 | a stopped thread enters the queue of the collector, which it never entered before |
| Scheduler.Kernel.ReadyGet | kernel/process/core_state.cpp:17-29 | the head of the best ready queue below the level that is not empty, and only that leaves its queue |
| Scheduler.Kernel.ReadyPut | kernel/process/core_state.cpp:31-39 | the thread is last in the ready queue of its priority, all other queues are as before |
| Scheduler.Kernel.Pick | kernel/process/waitable.cpp:97-113 | the thread chosen could run and none that could run stood ahead of it, in a better queue or nearer to the head of the same; the collector is due a signal exactly if a stopped thread stood ahead, and exactly those have come to its queue |
| Scheduler.Kernel.WakeChain | kernel/process/waitable.cpp:204-228 | all threads of the chain become ready in the queues of their priorities, without timers, and nothing else changes |
| Scheduler.Kernel.NotifyAll | kernel/process/waitable.cpp:74-81 | a notification wakes all waiters and only them, who line up in the ready queues of their priorities in the order in which they waited; abandoning crashes exactly if somebody waits |
| Scheduler.Kernel.Notify | kernel/process/waitable.cpp:74-81 | every waiter is woken and counted, in the order in which they waited; every thread stays in its one place |
| Scheduler.Kernel.NotifyOne | kernel/sync/event.cpp:24-35 | wakes exactly the thread that waits longest, if any; it spins exactly if the caller holds the lock of the object or of that thread |
| Scheduler.Kernel.GcSignal | kernel/process/core_state.cpp:299-302 | wakes the collector whenever it waits, unless it is the thread about to run; afterwards it does not sleep; it spins exactly if the caller holds one of the locks this takes |
| Scheduler.Kernel.PickNext | kernel/process/waitable.cpp:94-113 | the search together with the signal: the foremost thread that can run, exactly the stopped ones ahead of it collected, the collector awake if there were any; it spins exactly under `SelfLocks` |
| Scheduler.Kernel.LeaveBehind | kernel/process/core_state.cpp:178-194 | the thread left behind last time goes to the collector, a stopped one leaving now takes its place |
| Scheduler.Kernel.SwitchTo | kernel/process/core_state.cpp:170-221 | the target is on the core, every other thread keeps its place; exactly the thread left behind before, if any, is handed over, and then the collector is awake |
| Scheduler.Kernel.Suspend | kernel/process/waitable.cpp:83-134 | the running thread waits for the object and is otherwise as before; the foremost thread that can run and is not the object itself takes the core; exactly the stopped threads ahead of it and the one left behind go to the collector; exactly when the kernel spins on a lock it holds, and exactly when the collector, going to sleep, leaves work behind |
| Scheduler.Kernel.Sleep | kernel/process/thread.cpp:232-265 | waits for its timer only, the foremost thread that can run takes the core, exactly the stopped ones ahead of it are collected; without a time it gives way |
| Scheduler.Kernel.Preempt | kernel/process/core_state.cpp:112-161 | a running thread keeps the core exactly if no better thread can run, else it stays ready, the foremost takes over, and exactly the stopped threads ahead of that one are collected; a stopped one is left behind, for the foremost or for the collector it woke; no work comes to a sleeping collector |
| Scheduler.Kernel.GiveWay | kernel/process/core_state.cpp:132-142 | the thread that gives way is ready in the queue of its priority, or left behind if stopped |
| Scheduler.Kernel.TimerFires | kernel/process/waitable.cpp:144-172 | the thread is ready with reason TIMEOUT and off its wait queue, and takes the core exactly if its priority is better; whom it takes it from stays ready, or is left behind when stopped |
| Scheduler.Kernel.Kill | kernel/process/thread.cpp:267-306 | a thread in its critical section is only marked; any other stops, wherever it was, and is still in exactly one place; nothing but its state changes, and what it waited for; if it had the core, the foremost of the others takes it, or the collector that was woken; of the others only the collector, if it sleeps, and the thread that takes the core change |
| Scheduler.Kernel.KillWaiting | kernel/process/thread.cpp:286-300 | off its queue and its timer, with the collector, and the collector is awake |
| Scheduler.Kernel.Hold | kernel/process/thread.cpp:211-215 | the critical section begins |
| Scheduler.Kernel.Drop | kernel/process/thread.cpp:217-230 | the critical section ends; a thread killed inside it stops here and leaves the core to the foremost of the others, or to the collector that was woken, and the others keep state and place |
| Scheduler.Kernel.Collect | kernel/process/core_state.cpp:312-323 | the first thread of the collector's queue is gone for good, those who waited for its end are ready, in the order they came, and nothing else changes |
| Scheduler.Kernel.Spawn | kernel/process/thread.cpp:21-51 | a new thread is last in the ready queue of its priority, and can be waited for |
| Scheduler.Kernel.OnePlace | kernel/process/thread.cpp:94-143 | every thread is in exactly the place its state dictates, and in one queue at most |
| Scheduler.Change | kernel/process/thread.cpp:94-143 | one thread may change state and place together, all others keep theirs |
| Scheduler.CollectKeeps | kernel/process/core_state.cpp:284-297 | a thread handed to the collector was never handed to it before |
| Scheduler.FoundOne | kernel/process/waitable.cpp:97-111 | while another thread can run the search for the next one does not come up empty |
| Scheduler.SearchEnds | kernel/process/core_state.cpp:17-29 | when the search ends at a thread, exactly the stopped threads ahead of it were met, and none ahead could run |
| Scheduler.EscapedIs | kernel/process/core_state.cpp:143-160 | a thread found only by the second search, after the collector was signalled, is still the foremost of those that could run before, or is the collector |
| Scheduler.StaysAttended | kernel/process/core_state.cpp:284-302 | an operation that brings nothing to a sleeping collector keeps it from sleeping with work to do |
| Scheduler.CollectorOversleeps | kernel/process/core_state.cpp:304-325 | a run from boot on in which a waiting thread is killed before the collector waits; after it the collector sleeps and the thread is in its queue |
| Scheduler.CollectorSpins | kernel/process/waitable.cpp:83-132 | a run from boot on in which the collector meets a stopped thread on its way to sleep and spins on the lock of its event |
| Scheduler.AbandonedWaiterCrashes | kernel/process/waitable.cpp:74-81 | a run from boot on in which abandoning an object that a thread waits for meets the bugcheck |
| DiskCaches.VisibleIsContent | kernel/dev/disk_interface.cpp:105-109 | what a reader sees, the slot copy if valid and else the disk, is the content of a plain disk |
| DiskCaches.CleanEqualsDisk | kernel/dev/disk_interface.cpp:30-69 | a valid clean sector equals the disk |
| DiskCaches.CleanDiskIsContent | kernel/dev/disk_interface.cpp:203-211 | with nothing dirty the disk is the content |
| DiskCaches.HeldOnce | kernel/dev/disk_interface.cpp:131-166 | a sector is held by one slot at most |
| DiskCaches.PageReplaced | kernel/dev/disk_interface.cpp:30-103 | when a slot may change without changing what is visible |
| DiskCaches.Slot.Flush | kernel/dev/disk_interface.cpp:30-52 | exactly the dirty sectors are written, run by run; if a command fails only dirty sectors can have changed and the slot is as before |
| DiskCaches.Slot.Reload | kernel/dev/disk_interface.cpp:54-69 | the slot is flushed and then shows the page as it is on the disk; a failed read leaves it empty |
| DiskCaches.Slot.Load | kernel/dev/disk_interface.cpp:71-82 | a whole page is left alone, a partial one reloaded |
| DiskCaches.Slot.Store | kernel/dev/disk_interface.cpp:84-103 | the sectors asked for are zeroed, valid and dirty; another page is flushed first |
| DiskCaches.DiskCache.Get | kernel/dev/disk_interface.cpp:131-166 | a read changes no visible sector, a write only those asked for; the slot taken over is the first of the free ones used longest ago; which sectors of the slot are valid and dirty afterwards, and its time of use; only what it had dirty is written; even failing commands lose nothing |
| DiskCaches.DiskCache.Upgrade | kernel/dev/disk_interface.cpp:175-188 | marks just those sectors dirty, what is visible stays |
| DiskCaches.DiskCache.WriteSector | kernel/dev/disk_interface.cpp:175-188 | writing to a dirty sector changes that sector of the content only |
| DiskCaches.DiskCache.ReadsContent | kernel/dev/disk_interface.cpp:105-109 | a valid sector of a slot reads as the content |
| DiskCaches.DiskCache.Relax | kernel/dev/disk_interface.cpp:190-201 | the slot is free again, flushed if asked for, and otherwise as before |
| DiskCaches.DiskCache.Flush | kernel/dev/disk_interface.cpp:203-211 | every slot that is not locked is flushed, a failure stops no other and costs a failed command each; without failures every sector that no locked slot has dirty is on the disk as its content; only what unlocked slots had dirty is written, and locked slots stay as they are |
| ClusterChains.ClusterChain.Get | kernel/filesystem/exfat.cpp:434-498 | always the plain walk from the first cluster, whatever was cached; the last lines used stay cached, in order of use, never more than the limit |
| ClusterChains.ClusterChain.AddLine | kernel/filesystem/exfat.cpp:473-495 | the cache stays strictly descending, true to the walk, and the same lines as the order of use |
| ClusterChains.WalkOnChain | kernel/filesystem/exfat.cpp:463-469 | on a chain the walk gives its clusters in order and 0 past its end |
| ClusterChains.InsertKeeps | kernel/filesystem/exfat.cpp:473-475 | a true line in its place keeps the cache right |
| ClusterChains.EvictKeeps | kernel/filesystem/exfat.cpp:490-494 | dropping the line used longest ago keeps it right |
| ClusterChains.Volume.AllocGet | kernel/filesystem/exfat.cpp:364-404 | takes the first clear bit from the hint on, or else from the start to the sector of the hint; fails exactly if all bits it looks at are set, and, with nothing freed, only on a full bitmap |
| ClusterChains.FreedBitIsMissed | kernel/filesystem/exfat.cpp:364-404 | a freed bit between the start of the hint's sector and the hint is not found |
| ClusterChains.Volume.AllocPut | kernel/filesystem/exfat.cpp:406-432 | clears the bit, and tells a double release |
| ClusterChains.Volume.FatPut | kernel/filesystem/exfat.cpp:50-75 | the new cluster is an end, linked after the tail exactly if the tail was an end |
| ClusterChains.ClusterChain.Expand | kernel/filesystem/exfat.cpp:500-547 | the old chain is a prefix of the new, just the added clusters are newly marked, no other chain changes; the length reached, the two odd cases of position 0, and failure only with no cluster found |
| ClusterChains.ClusterChain.FindTail | kernel/filesystem/exfat.cpp:508-527 | finds the last cluster, or that the position is there already |
| ClusterChains.ClusterChain.AddCluster | kernel/filesystem/exfat.cpp:531-545 | one more cluster, or nothing; asked for position 0 of a longer chain it marks a cluster that no chain has |
| ClusterChains.AppendKeeps | kernel/filesystem/exfat.cpp:50-75 | linking an unmarked cluster keeps all chains intact, disjoint and marked |
| ClusterChains.LeakKeeps | kernel/filesystem/exfat.cpp:50-71 | a cluster marked but not linked harms no chain |
| ClusterChains.OtherCachesStayTrue | kernel/filesystem/exfat.cpp:500-547 | growing one file leaves the cached lines of every other file true |
| Locks.RwLock.TryLock | kernel/sync/rwlock.cpp:20-36 | succeeds exactly if the lock is free for the mode |
| Locks.RwLock.Attempt | kernel/sync/rwlock.cpp:38-58 | takes the lock exactly if it is free for the mode, else queues up; an owner excludes sharers and nobody queues for a free lock |
| Locks.RwLock.Retry | kernel/sync/rwlock.cpp:40-56 | a notified thread takes part again |
| Locks.RwLock.Downgrade | kernel/sync/rwlock.cpp:75-82 | the owner becomes the one sharer and all waiters wake |
| Locks.RwLock.Unlock | kernel/sync/rwlock.cpp:84-102 | one holder less; the last to release wakes all waiters, any other wakes nobody |
| Locks.RwLock.NobodyIsForgotten | kernel/sync/rwlock.cpp:38-102 | nobody is queued for a lock that is free for him, and an owner is alone |
| Locks.Semaphore.Attempt | kernel/sync/semaphore.cpp:47-63 | takes a unit exactly if there is one, else queues up |
| Locks.Semaphore.Retry | kernel/sync/semaphore.cpp:49-61 | a notified thread takes part again and may lose the race |
| Locks.Semaphore.TimeOut | kernel/process/waitable.cpp:144-172 | a waiter whose time is up leaves the queue, the others keep their order and the wakeup promise |
| Locks.Semaphore.Check | kernel/sync/semaphore.cpp:40-45 | takes a unit exactly if there is one |
| Locks.Semaphore.Signal | kernel/sync/semaphore.cpp:65-76 | one unit more up to the limit, exactly unless the count is at 2^32 - 1, and the longest waiter wakes |
| Locks.Semaphore.NothingFromNothing | kernel/sync/semaphore.cpp:40-76 | acquisitions never exceed the initial count and the signals; if a unit is left while threads are queued, a notified thread is on its way to it |
| Pipes.FullMeans | kernel/sync/pipe.cpp:52-58 | full is one byte less than the buffer, empty is none |
| Pipes.RingTakes | kernel/sync/pipe.cpp:95-97 | the byte at the head is the first of the contents |
| Pipes.RingGives | kernel/sync/pipe.cpp:126-128 | the byte at the tail becomes the last of the contents |
| Pipes.RoomIsExact | kernel/sync/pipe.cpp:118-120 | the room computed in 32 bits is right at every position exactly for buffers of at most 2^31 bytes |
| Pipes.Room | kernel/sync/pipe.cpp:118-120 | it never comes out too large |
| Pipes.Pipe.Check | kernel/sync/pipe.cpp:60-66 | ready exactly if there is something to do for the side of the caller |
| Pipes.Pipe.WaitFor | kernel/sync/pipe.cpp:68-78 | passes exactly then, else queues |
| Pipes.Pipe.Read | kernel/sync/pipe.cpp:80-104 | the oldest bytes, as many as there are up to the length; wakes all waiters exactly if the pipe was full |
| Pipes.Pipe.Write | kernel/sync/pipe.cpp:106-137 | as much as fits, in atomic mode all or nothing; bytes read followed by the contents are always the bytes written; wakes all waiters exactly if the pipe was empty |
| Pipes.Pipe.NobodyWaitsInVain | kernel/sync/pipe.cpp:52-137 | a queued reader means empty, a queued writer full, and what was read is a prefix of what was written |
| Counterexamples.AddressIsWrong | kernel/memory/vm.cpp:652-685 | a new space filled up to 4 GB reserves one page more, above, and tells an address below |
| Counterexamples.ExpandLeaks | kernel/filesystem/exfat.cpp:500-547 | a run in which expand(0) fails and marks a cluster of no chain |
| Counterexamples.ExpandAddsOne | kernel/filesystem/exfat.cpp:500-547 | a run in which expand(0) gives a chain of one cluster a second |
| Counterexamples.SignalTakesAll | kernel/sync/semaphore.cpp:65-76 | a signal at the largest count leaves the semaphore with no unit |

## Left out

Memory

- The constructors of the physical allocator and of the kernel space, and `kernel_vspace`, which otherwise repeats `user_vspace`: the model starts from any state that satisfies the invariant.
- `critical_check` of the physical allocator, `map_view` slots, `invlpg`, CR3 and caching: a page table is an array at hand.
- Addresses are page and frame numbers; the indexes into the top table and a directory are flattened to one table number, and the nested loops over them run as one loop.
- The callbacks of `imp_iterate` run page by page with one bool for "present" or "preserved"; attributes are a record.
- `BLOCK::get` is a function on the entries; its bugchecks are the cases it does not cover, and are shown out of reach in a valid table.
- Bugchecks of the release paths are preconditions of the inner methods, which every caller in the model is shown to meet.
- `check_integrity` of vm.cpp is the invariant `Valid` of a page table, not a routine; that of pm.cpp is both.
- Asserts stricter than the code needs are not modelled: kernel/memory/vm.cpp:74 and 423, kernel/memory/pm.cpp:225, kernel/dev/disk_interface.cpp:79, kernel/process/thread.cpp:275, kernel/filesystem/exfat.cpp:44 and 63.
- `max_size` of the buddy heap, which nothing uses, its lock, and address arithmetic that wraps at the end of the address space. The expander is a supply of fresh regions.

Timers and threads

- The timer's callbacks are a log of calls; the HPET and 8254 drivers, the clock and an overflow of the ticket counter are not modelled. The record of tickets is a set.
- More than one core, interrupt nesting, the FPU, time slices and the accounting of processes: each kernel operation is one step. A spin lock appears only where one step can run into a lock that it holds itself, which is the wait for an object; a callback of the timer that waits or cancels would spin in the same way, and is not modelled.
- The assert of kernel/process/core_state.cpp:33, which a stopped thread put back by a wait for it does not meet; without it that thread stays queued, as in the model.
- Threads are records in a map by number, and a timer of a waiting thread is entered together with its state; `set_priority`, handles and names are not modelled.
- The bugcheck "no ready thread" is excluded by a precondition: some other thread can run, as the idle thread always can.
- `wait_callback`, reference counts and the destructor of a waitable object.

Disk and files

- One pass of the loop in `disk_interface::get` is one step: waiting for a free slot and trying again, and a second caller during a command, are not modelled. The reader-writer lock of a slot is one flag. Bit masks are sets of positions.
- A command that fails leaves the slot locked in the kernel; the model has the same, and proves only that nothing visible is lost.
- Directory records, names, `truncate`, the read and write workers and `thread_pool`. I/O failures in chains, the word cache of the bitmap reader, and `expand` beyond position 0 of an empty chain, which reads the FAT at cluster 0.

Locks and pipes

- Killing a thread inside a lock, named objects, deletion of an object in use. The thread queue of a lock is a sequence here; its links are the subject of ThreadQueues and Scheduler.
- The lock mode `upgrade`, which is commented out in the source.
- The flags of a pipe's iostate other than success and failure, and its owner as a process: who calls is a flag.
