# Verification of the memcached storage engine and of the pipeline viewer

This project models the storage engine of memcached as it is vendored under `applications/memcached_kernel`, and the
print queue of `gem5/util/o3-pipeview.py`, and proves properties of the models. `dafny verify dfyconfig.toml` checks
all of it.

| files | what they are about |
|---|---|
| `Base.dfy` | options, bytes, lists, pieces put together |
| `Extstore*.dfy` | the external page store: a state machine over the critical sections of its threads, its invariant, its runs, its books, eviction, the answers its callers get, and the engine object |
| `Assoc.dfy` | the hash table that grows bucket by bucket while lookups go on |
| `Lru.dfy` | a doubly linked LRU list and the crawler that walks it |
| `Items*.dfy` | items, reference counts, index and lists, the tail walk, what every operation answers and does to an item, the item store object, the hash table and linked lists in memory beneath it through whole runs, and the bump queue in bytes |
| `Cas.dfy`, `CasAnswers.dfy` | store commands, increments and compare-and-swap; their answers and the bytes they leave |
| `Chunks.dfy`, `Transmit.dfy`, `Bundles.dfy` | chunked values, scatter/gather sending, response bundles |
| `Bip.dfy` | the two-region buffer and the LRU bumps queued in it |
| `Crc*.dfy`, `Md5.dfy`, `Base64.dfy` | fast forms and their simple forms, down to polynomials and bits |
| `Pipeview.dfy` | the bounded reorder queue |

The external page store is modelled as the code locks it: each section under a mutex is one step, reads and writes of
the disk are steps of their own with no lock held, and a run is any interleaving. `ExtstoreEngine.Engine`,
`ItemsCode.Store`, `Cas.Server` and `Assoc.HashTable` are the objects whose fields the program updates; each has a
method `Perform` that carries out any step and keeps the invariant.

What the models assume, because the code does:

- Extstore: one writer per bucket (`_allocate_page` asserts it); `pwrite` and `pread` transfer everything asked for
  (their results are ignored); page versions, reference counts and statistics do not wrap around; objects are not
  empty; reads and handles come from earlier writes of the same run.
- Items: the caller holds the items it works on and links no key twice; the 16-bit reference count does not wrap
  around; tail repair is off; times are integers that do not wrap around. In the byte queue of bumps an address is a
  64-bit number, and a fetch comes with a hash value of four bytes.
- CAS ids are switched on and 64-bit ids are not used up. `safe_strtoull` is a parameter.
- The hash function, memory allocation outcomes, socket results, the clock, item locks that are not had, and the
  crc32 instructions are parameters. `md5_process` is any compression function. A buffer's address is a parameter.
- MD5 pieces are short enough for `offset + nbytes` to fit an `int`.

## Model

| member | source | states |
|---|---|---|
| `ExtstoreTheorems.InitKeepsInv` | applications/memcached_kernel/memcached/extstore.c:307-379 | The engine extstore_init sets up is a good state: lists, counters, buffers and IO objects all agree. |
| `ExtstoreRuns.AssertsHold` | applications/memcached_kernel/memcached/extstore.c:417-534 | In a good state no step any thread may take trips an assertion of the code, pops an empty IO stack or reads outside a buffer. |
| `ExtstoreRuns.StepKeepsInv` | applications/memcached_kernel/memcached/extstore.c:417-998 | Every critical section of writers, IO threads, callers and the maintenance thread takes a good state to a good state. |
| `ExtstoreTheorems.RunKeepsInv` | applications/memcached_kernel/memcached/extstore.c:417-998 | Every state of every interleaving is good. |
| `ExtstoreTheorems.RunIsSafe` | applications/memcached_kernel/memcached/extstore.c:417-858 | In no state of any run can a thread take a step that trips an assertion. |
| `ExtstoreTheorems.LogOnlyGrows` | applications/memcached_kernel/memcached/extstore.c:601-619 | No two writes of a run share a page, version and offset, so what a handle stands for never changes. |
| `ExtstoreTheorems.ReadsReturnWhatWasWritten` | applications/memcached_kernel/memcached/extstore.c:730-858 | A read that does not miss returns the bytes written under its handle, from the buffer or from disk, whatever was flushed, deleted, closed, evicted and reused in between. |
| `ExtstoreTheorems.HeldPageIsIntact` | applications/memcached_kernel/memcached/extstore.c:796-858 | While a read holds a page, the page is live under the version read and the bytes asked for are on its disk. |
| `ExtstoreTheorems.HeldPageIsNotFreed` | applications/memcached_kernel/memcached/extstore.c:867-998 | No step frees a page with a read in flight or gives it a new version. |
| `ExtstoreTheorems.StaleForever` | applications/memcached_kernel/memcached/extstore.c:664-676 | A handle whose page was freed never passes the version check again. |
| `ExtstoreTheorems.FreeingMakesStale` | applications/memcached_kernel/memcached/extstore.c:867-913 | Freeing a page makes every handle to it stale. |
| `ExtstoreTheorems.EveryPageOnOneList` | applications/memcached_kernel/memcached/extstore.c:344-357 | Every page but page 0 is on exactly one list, the one its own fields name; page 0 is on none. |
| `ExtstoreTheorems.EveryWbufInOnePlace` | applications/memcached_kernel/memcached/extstore.c:454-508 | A write buffer is on the stack or attached to one page, never both; an attached one starts where the page was last written and ends at what is allocated. |
| `ExtstoreWrites.PopMovesPage` | applications/memcached_kernel/memcached/extstore.c:417-443 | The page _allocate_page takes was free and on the list it came from; on the bucket chain every page is on its one list again. |
| `ExtstoreWrites.WriteToPageKeepsInv` | applications/memcached_kernel/memcached/extstore.c:545-619 | The section of a write under the page mutex, in all its branches, keeps the invariant and finds an IO object whenever it has to flush. |
| `ExtstoreReads.CallbackKeepsInv` | applications/memcached_kernel/memcached/extstore.c:482-508 | The flush callback keeps the invariant: what was in the buffer is on disk before the buffer is let go. |
| `ExtstoreReads.CheckReadKeepsInv` | applications/memcached_kernel/memcached/extstore.c:796-815 | The checks of the IO thread keep the invariant: a read answered from the buffer has the right bytes, one sent to disk holds its page. |
| `ExtstoreMaint.FreeKeepsInv` | applications/memcached_kernel/memcached/extstore.c:867-913 | Freeing a page that nobody reads and that has no buffer keeps the invariant. |
| `ExtstoreMaint.MaintScanKeepsInv` | applications/memcached_kernel/memcached/extstore.c:950-979 | A turn of the maintenance scan keeps the invariant, whether it reclaims the page or not. |
| `ExtstoreMaint.MaintEvictKeepsInv` | applications/memcached_kernel/memcached/extstore.c:981-998 | The eviction at the end of the scan keeps the invariant. |
| `ExtstoreBooks.DeleteBalances` | applications/memcached_kernel/memcached/extstore.c:664-697 | A delete keeps the global counters equal to the sums over the pages exactly when it reports no more than the page holds, or is refused. |
| `ExtstoreBooks.OverReportingDelete` | applications/memcached_kernel/memcached/extstore.c:664-697 | In a fresh engine a delete that names version 0 passes the check on a free page and unbalances the counters. |
| `ExtstoreBooks.FirstObjectDeleted` | applications/memcached_kernel/memcached/extstore.c:545-697 | After a fetch and a write in a fresh engine: deletes of the object balance exactly when they report at most its size and one object. |
| `ExtstoreBooks.BooksBalance` | applications/memcached_kernel/memcached/extstore.c:601-697 | In every run whose deletes report true sizes the global counters are the sums over the pages. |
| `ExtstoreBooks.PassFindsOldest` | applications/memcached_kernel/memcached/extstore.c:950-979 | An undisturbed scan ends with the eligible page of the lowest version. |
| `ExtstoreBooks.EvictsTheOldest` | applications/memcached_kernel/memcached/extstore.c:940-998 | An undisturbed turn frees the reclaimable pages, or, if it has to evict, closes the oldest eligible page and no other, and frees it if nobody reads it. |
| `ExtstoreEviction.TurnSoFar` | applications/memcached_kernel/memcached/extstore.c:940-979 | In any run, at any point of a turn: the scan has looked once at every page below its position, and its candidate is the lowest version among the pages eligible when it looked at them. |
| `ExtstoreEviction.EvictsOldestSeen` | applications/memcached_kernel/memcached/extstore.c:940-998 | With any interleaving of other threads: a turn that ends has looked at every page, and if it evicts it changes one page only, the oldest of those it saw eligible, still in use under the version seen. |
| `ExtstoreAnswers.ReadAnswer` | applications/memcached_kernel/memcached/extstore.c:796-858 | In every interleaving: a read whose page is free, closed or of another version at its check misses; any other is on its way to the bytes written under its handle, or has got them, in every later state. |
| `ExtstoreAnswers.MissedIff` | applications/memcached_kernel/memcached/extstore.c:796-815 | So a finished read missed exactly when one of the three held at its check. |
| `ExtstoreAnswers.ReadGoesOn` | applications/memcached_kernel/memcached/extstore.c:829-858 | The read of the disk gets the bytes, the release hands them out. |
| `ExtstoreAnswers.CloseAnswer` | applications/memcached_kernel/memcached/extstore.c:712-722 | A close of the version the page has closes that page and changes nothing else; any other changes nothing. |
| `ExtstoreAnswers.ClosedForGood` | applications/memcached_kernel/memcached/extstore.c:712-722 | After such a close no handle to the page is current again in the run. |
| `ExtstoreAnswers.WriteTaken` | applications/memcached_kernel/memcached/extstore.c:545-619 | A write for which the open buffer of its page has room, or a new one can be had, is stored under a handle no other write has, and is in the books; it can be read at once exactly if the page is not closed. |
| `ExtstoreAnswers.WriteRefused` | applications/memcached_kernel/memcached/extstore.c:545-596 | Any other write stores nothing: a full page is given up for a new one, a buffer that is open and too small is on its way to the disk. |
| `ExtstoreAnswers.FetchAnswer` | applications/memcached_kernel/memcached/extstore.c:417-451 | A write gets the open page of its bucket, or a page that was free: of the free bucket asked for if there is one, of the default bucket otherwise, under a version none had before. |
| `ExtstoreAnswers.NextPageAnswer` | applications/memcached_kernel/memcached/extstore.c:417-451 | So does the page that takes the place of a full one. |
| `ExtstoreAnswers.TurnAnswer` | applications/memcached_kernel/memcached/extstore.c:940-998 | Page by page what an undisturbed maintenance turn does: the spent pages are blank; only if there is none, and the default list is empty, the oldest page that may go is closed, and blank if nobody reads it. |
| `ExtstoreEngine.ReadIovs` | applications/memcached_kernel/memcached/extstore.c:736-745 | The iovec form of a read from the buffer gives pieces of the lengths asked for which put together are the flat copy. |
| `ExtstoreEngine.SetUpLists` | applications/memcached_kernel/memcached/extstore.c:344-357 | Pushing pages from the last down to page 1 gives each free list in ascending order, and counts all pages but page 0. |
| `ExtstoreEngine.Unlink` | applications/memcached_kernel/memcached/extstore.c:878-891 | The walk along a bucket chain takes out exactly the page. |
| `ExtstoreEngine.Engine.MaintTurn` | applications/memcached_kernel/memcached/extstore.c:940-998 | A whole turn of the maintenance thread, on the object, ends in a good state: the one the scan and the eviction define. |
| `ExtstoreEngine.Engine.Perform` | applications/memcached_kernel/memcached/extstore.c:417-998 | Whatever enabled step the object is asked for, it takes the step of the state machine and stays in a good state. |
| `ExtstoreEngine.Drive` | applications/memcached_kernel/memcached/extstore.c:234-998 | An object set up and driven through any schedule goes through a run, so every statement about runs speaks of it. |
| `Assoc.FindIsLookup` | applications/memcached_kernel/memcached/assoc.c:70-98 | A lookup answers from one finite map at every moment of an expansion. |
| `Assoc.InsertRefines` | applications/memcached_kernel/memcached/assoc.c:153-170 | Inserting an absent key adds it to the map. |
| `Assoc.DeleteRefines` | applications/memcached_kernel/memcached/assoc.c:172-189 | Deleting a key removes it from the map and nothing else. |
| `Assoc.ExpandRefines` | applications/memcached_kernel/memcached/assoc.c:122-141 | Starting an expansion, with memory or without, leaves the map alone. |
| `Assoc.MigrateKeepsItems` | applications/memcached_kernel/memcached/assoc.c:213-233 | Migrating a bucket loses nothing and duplicates nothing. |
| `Assoc.MigrateRefines` | applications/memcached_kernel/memcached/assoc.c:213-233 | Migrating a bucket leaves the map alone. |
| `Assoc.FreedTableIsEmpty` | applications/memcached_kernel/memcached/assoc.c:224-226 | The old table is empty when it is freed. |
| `Assoc.RunRefines` | applications/memcached_kernel/memcached/assoc.c:70-264 | Through every run of inserts, deletes, expansions and migrations the two tables stand for one finite map. |
| `Assoc.InitRepresents` | applications/memcached_kernel/memcached/assoc.c:55-68 | A new table stands for the empty map. |
| `Assoc.MovedSearch` | applications/memcached_kernel/memcached/assoc.c:214-219 | Migration reverses a chain: a lookup then meets the last holder of a key first. |
| `Assoc.OldestFound` | applications/memcached_kernel/memcached/assoc.c:191-264 | Some steps of the maintenance thread on, from rest or in the middle of an expansion, a lookup finds the last holder of the key in its chain. |
| `Assoc.DuplicateFlips` | applications/memcached_kernel/memcached/assoc.c:152-264 | A second item inserted under a key, in any state of the table: it is found at once, and some steps of the maintenance thread later the first one is. |
| `Assoc.NewestFoundIff` | applications/memcached_kernel/memcached/assoc.c:152-264 | A newly inserted item is found after any number of steps of the maintenance thread exactly when no other was under its key. |
| `Assoc.HashTable.FindItem` | applications/memcached_kernel/memcached/assoc.c:70-98 | The walk along a chain finds what the index holds under the key. |
| `Assoc.HashTable.Before` | applications/memcached_kernel/memcached/assoc.c:103-119 | The walk stops at the first item with the key, or at the end of the chain. |
| `Assoc.HashTable.Perform` | applications/memcached_kernel/memcached/assoc.c:122-233 | Any operation turns a table object that stands for one finite map into one that stands for the changed map. |
| `Assoc.HashTable.Lookup` | applications/memcached_kernel/memcached/assoc.c:70-98 | The table object answers lookups from the map. |
| `Lru.List.LinkQ` | applications/memcached_kernel/memcached/items.c:420-445 | The doubly linked list gains the item at its head, with its counters; the crawler aside nothing else changes. |
| `Lru.List.UnlinkQ` | applications/memcached_kernel/memcached/items.c:460-490 | The doubly linked list loses exactly the item, with its counters. |
| `Lru.List.CrawlQ` | applications/memcached_kernel/memcached/items.c:1792-1844 | A crawl step swaps the crawler with the item before it, or pops it at the head; with the crawler erased the list stays as it is. |
| `Lru.List.UnlinkTail` | applications/memcached_kernel/memcached/items.c:1769-1790 | Taking the crawler out restores the list, even after the pop at the head left its pointers stale. |
| `Lru.List.ClassDone` | applications/memcached_kernel/memcached/crawler.c:394-403 | The end of a crawl leaves the list as it would be without the crawler, and the counters right. |
| `Lru.List.Crawl` | applications/memcached_kernel/memcached/crawler.c:480-526 | A crawl looks at the last n items, or all, once each from tail to head, and leaves the list without the crawler and without the reaped items. |
| `ItemsOps.LastReference` | applications/memcached_kernel/memcached/items.c:362-374 | The assertions of item_free: a last reference is never the link, and no list still has the item. |
| `ItemsOps.ReleaseKeepsInv` | applications/memcached_kernel/memcached/items.c:551-560 | An item is freed exactly when its last holder lets go of it and it is not linked. |
| `ItemsOps.LinkKeepsInv` | applications/memcached_kernel/memcached/items.c:498-518 | Linking keeps index, lists, counters and reference counts in agreement. |
| `ItemsOps.UnlinkKeepsInv` | applications/memcached_kernel/memcached/items.c:520-534 | Unlinking does, and frees the item exactly when nobody holds it. |
| `ItemsOps.ReplaceKeepsInv` | applications/memcached_kernel/memcached/items.c:591-598 | Replacing does. |
| `ItemsOps.UpdateKeepsInv` | applications/memcached_kernel/memcached/items.c:562-588 | An update does, with the move from COLD to WARM and the move to the head. |
| `ItemsOps.GetKeepsInv` | applications/memcached_kernel/memcached/items.c:977-1087 | A fetch does, whether it misses, finds an item past its time, or bumps one. |
| `ItemsOps.CrawlKeepsInv` | applications/memcached_kernel/memcached/crawler.c:206-260 | The crawler gives back the reference it takes, whatever it decides about the item. |
| `ItemsPull.VisitIsTurn` | applications/memcached_kernel/memcached/items.c:1122-1276 | A turn of the tail walk changes only its item and leaves nothing held but the item it stops at. |
| `ItemsPull.PullTailKeepsInv` | applications/memcached_kernel/memcached/items.c:1102-1276 | The whole call keeps the invariant and takes no reference for good but the one of the item it was asked to return. |
| `ItemsPull.PullTailBalances` | applications/memcached_kernel/memcached/items.c:1102-1276 | For one call: every reference is given back or handed out, unless it stops at an item it was asked to return and cannot hand out. |
| `ItemsRuns.NeverLeaksIff` | applications/memcached_kernel/memcached/items.c:1102-1276 | For all states and surroundings: a call never leaks exactly when it does not ask for an item that its own list and flags keep it from handing out. |
| `ItemsRuns.ReferenceLeaks` | applications/memcached_kernel/memcached/items.c:1236-1276 | One item allocated, linked and released is enough for such a call to keep a reference. |
| `ItemsRuns.DrainKeepsInv` | applications/memcached_kernel/memcached/items.c:1340-1373 | Taking care of a queued bump keeps the invariant and releases the reference the bump held. |
| `ItemsRuns.RunKeepsInv` | applications/memcached_kernel/memcached/items.c:420-1373 | Every state of every run of operations keeps the invariant. |
| `ItemsRuns.LinkedIndexedListed` | applications/memcached_kernel/memcached/items.c:420-598 | In every state of every run an item is linked exactly when the index finds it exactly when it is on its own list and no other, and the counters are the counts and sums. |
| `ItemsRuns.InUseMeansReferenced` | applications/memcached_kernel/memcached/items.c:362-559 | In every state of every run the reference count is the number of holders plus one for the link, and an item is in use exactly as long as that is not zero. |
| `ItemsAnswers.LinkAnswer` | applications/memcached_kernel/memcached/items.c:498-518 | A linked item is found under its key, is first on its list, and has its time set; nothing else changes. |
| `ItemsAnswers.UnlinkAnswer` | applications/memcached_kernel/memcached/items.c:520-534 | An unlinked item is found under no key and is on no list; nothing else changes. |
| `ItemsAnswers.ReplaceAnswer` | applications/memcached_kernel/memcached/items.c:591-598 | After a replacement the key leads to the new item, which is first on its list; the old one is on none. |
| `ItemsAnswers.UpdateAnswer` | applications/memcached_kernel/memcached/items.c:562-588 | With segments an active COLD item goes to the head of the WARM list of its class and is not active any more; without, an item not updated for a while goes to the head of its list; the time is set and nothing else changes. |
| `ItemsAnswers.GetAnswer` | applications/memcached_kernel/memcached/items.c:977-1087 | A fetch hands out the item under the key exactly if it is not flushed and its time has not come; the caller holds it, and the bump buffer too if a cold item was fetched twice; which flags and times change, from the header alone. |
| `ItemsAnswers.MissAnswer` | applications/memcached_kernel/memcached/items.c:1018-1042 | A fetch that hands out nothing leaves nothing under the key, and nobody holds more than before. |
| `ItemsAnswers.HandedOutIsFresh` | applications/memcached_kernel/memcached/items.c:977-1052 | In every run an item handed out is the linked one under the key, not flushed, and its time has not come. |
| `ItemsExpiry.TimeIsKept` | applications/memcached_kernel/memcached/items.c:977-1373 | In every run an item keeps the expiry time it was allocated with as long as it is in use. |
| `ItemsExpiry.HandedOutInTime` | applications/memcached_kernel/memcached/items.c:1030-1032 | So in every run it is handed out only before that time. |
| `ItemsAnswers.CrawlAnswer` | applications/memcached_kernel/memcached/crawler.c:206-260 | The crawler takes out exactly the items past their time that nobody holds, and leaves any other as it is. |
| `ItemsAnswers.DrainAnswer` | applications/memcached_kernel/memcached/items.c:1358-1365 | The first bump queued is an update of its item, and its reference is given back. |
| `ItemsPulled.PullAnswer` | applications/memcached_kernel/memcached/items.c:1102-1276 | For every call the crawler does not stop: the five items at most from the tail on that are locked, past their time or active on a WARM list are left alone, taken out or lifted to the head, in this order on the list; the item after them is evicted, moved, handed out or left, as its header, the flags and the share of the list decide; nothing else changes. |
| `ItemsPulled.PullBlocked` | applications/memcached_kernel/memcached/items.c:1125-1133 | A call that meets the crawler and gives way answers 0, and what it has passed stays done. |
| `ItemsPulled.CutsAt` | applications/memcached_kernel/memcached/items.c:1117-1123 | Every list is cut in two by what a walk passes, so the two statements above speak of every call. |
| `ItemsPulled.PullCounts` | applications/memcached_kernel/memcached/items.c:1102-1276 | On every list but a WARM one the answer is how much shorter the list has become. |
| `ItemsPulled.EvictedIsGone` | applications/memcached_kernel/memcached/items.c:1216-1242 | With eviction the first item in the way is found under no key and is on no list afterwards, and is freed unless somebody holds it. |
| `ItemsPulled.PullKeepsOthers` | applications/memcached_kernel/memcached/items.c:1102-1276 | Every other item that is not past its time keeps its header, but for the active flag of one lifted; an item that changes lists goes from HOT or COLD to WARM if active and from HOT or WARM to COLD if not. |
| `ItemsPulled.LiftedStaysIff` | applications/memcached_kernel/memcached/items.c:1186-1196 | An active WARM item that is lifted stays on its list exactly if the same call does not meet it again, or the list is within its share and the item young enough. |
| `ItemsPulled.LiftedIsDemoted` | applications/memcached_kernel/memcached/items.c:1186-1210 | On a WARM list of two it goes to COLD in the call that lifts it. |
| `ItemsCode.Store.LruPullTail` | applications/memcached_kernel/memcached/items.c:1102-1276 | The loop over up to five items from the tail, with locks not had and the crawler in the way, computes the walk the statements above are about. |
| `ItemsCode.Store.PrevOf` | applications/memcached_kernel/memcached/items.c:1122-1126 | The item before another on its list. |
| `ItemsCode.Store.Perform` | applications/memcached_kernel/memcached/items.c:362-1373 | Whatever operation its caller may ask the object for, it takes the step of the state machine and keeps the invariant. |
| `ItemsCode.Drive` | applications/memcached_kernel/memcached/items.c:362-1373 | A fresh object taken through the operations of any run ends where the run does. |
| `ItemsHeap.Heap.Link` | applications/memcached_kernel/memcached/items.c:498-518 | On the hash table and the linked lists themselves, linking is the linking of the model: all lists stay doubly linked, and the others stay as they are. |
| `ItemsHeap.Heap.Unlink` | applications/memcached_kernel/memcached/items.c:520-534 | So is unlinking. |
| `ItemsHeap.Heap.MoveItem` | applications/memcached_kernel/memcached/items.c:562-588 | So is the move of an item to another list. |
| `ItemsHeap.Heap.MoveToHead` | applications/memcached_kernel/memcached/items.c:562-588 | So is the move of an item to the head of its own list. |
| `ItemsReach.StepReaches` | applications/memcached_kernel/memcached/items.c:420-1373 | Every operation, the tail walk included, changes index and lists by single links, unlinks and moves, each of them one the code may make when it is made. |
| `ItemsReplay.Memory.Apply` | applications/memcached_kernel/memcached/items.c:420-588 | One such change made to the hash table and the linked lists is that change of the model: every list is doubly linked and counted, before and after. |
| `ItemsReplay.Memory.ReplayRun` | applications/memcached_kernel/memcached/items.c:420-1276 | The changes of any part of any run, made in memory, lead from the index and lists of its first state to those of its last. |
| `ItemsReplay.RunHasEdits` | applications/memcached_kernel/memcached/items.c:420-1276 | Every part of every run has such changes, and they touch only objects of items that the run links. |
| `ItemsReplay.NewMemory` | applications/memcached_kernel/memcached/items.c:55-60 | An empty hash table and empty lists are the index and lists of the first state. |
| `ItemsReplay.FromTheStart` | applications/memcached_kernel/memcached/items.c:420-1276 | So a whole run from the start, its changes made in memory, ends with its index in the hash table and its lists doubly linked. |
| `ItemsBumps.PointsToOne` | applications/memcached_kernel/memcached/items.c:1358-1361 | Of all items in use the pointer in the first entry is the address of one alone, the one whose bump was queued. |
| `ItemsBumps.Maintainer.DoFetch` | applications/memcached_kernel/memcached/items.c:977-1087 | A fetch bumps the item in the model exactly when the byte buffer took its entry; the buffer is the queue of the model before and after, and a region peeked stays. |
| `ItemsBumps.Maintainer.Serve` | applications/memcached_kernel/memcached/items.c:420-1276 | Every other operation leaves the buffer the queue of the model. |
| `ItemsBumps.Maintainer.WorkOne` | applications/memcached_kernel/memcached/items.c:1358-1365 | The pointer read from the buffer leads to the item whose bump was accepted first; it is bumped and its reference released. |
| `ItemsBumps.Maintainer.Turn` | applications/memcached_kernel/memcached/items.c:1340-1373 | One turn with fetches in the meantime: bumps are taken care of once, in the order of acceptance; some are if there are any, and all accepted before are exactly when region B was empty at the peek. |
| `ItemsBumps.Maintainer.Turns` | applications/memcached_kernel/memcached/items.c:1340-1373 | Any number of turns with fetches in them and in between: all bumps ever accepted are those taken care of, in order, and then those queued; two turns take care of all that were accepted before. |
| `Cas.CasStoredIff` | applications/memcached_kernel/memcached_SendBuffer.c:1715-1882 | Exactly when a compare-and-swap is answered with STORED, and when with NOT_FOUND. |
| `CasAnswers.StoreAnswer` | applications/memcached_kernel/memcached_SendBuffer.c:1715-1882 | For each of the eight store commands exactly when it is STORED, and when the answer is EXISTS or NOT_FOUND, from presence, CAS id and memory. |
| `CasAnswers.StoredValue` | applications/memcached_kernel/memcached_SendBuffer.c:1715-1882 | The bytes a STORED command leaves under its key: its own, or the old ones without their CRLF followed by its own, or the reverse; under a new CAS id. |
| `CasAnswers.RefusedLeaves` | applications/memcached_kernel/memcached_SendBuffer.c:1715-1882 | Any other answer leaves the cache as it was, but for an item whose time is past. |
| `CasAnswers.LastStoredIsHeld` | applications/memcached_kernel/memcached_SendBuffer.c:1715-1882 | In every run a key holds what the last STORED command for it wrote. |
| `CasAnswers.RemovedIsAbsent` | applications/memcached_kernel/memcached_SendBuffer.c:1715-1882 | In every run a key that was removed is absent until the next command for it. |
| `CasAnswers.DeltaRefused` | applications/memcached_kernel/memcached_SendBuffer.c:2393-2428 | When an increment or decrement is refused and how; it then changes nothing. |
| `CasAnswers.DeltaAnswer` | applications/memcached_kernel/memcached_SendBuffer.c:2393-2504 | Otherwise it answers with the sum modulo 2^64 or with the difference stopped at zero, and leaves that number in decimal without leading zeros: padded with spaces in place if nobody else holds the item and the number fits, in a new item with CRLF if not. |
| `CasAnswers.ThereAndBack` | applications/memcached_kernel/memcached_SendBuffer.c:2393-2504 | An increment that does not wrap around and the decrement by the same amount give the number back. |
| `CasAnswers.OneReading` | applications/memcached_kernel/memcached_SendBuffer.c:2453-2482 | No text left by an increment shows two numbers. |
| `CasAnswers.RunKeepsLines` | applications/memcached_kernel/memcached_SendBuffer.c:1715-2504 | In every run whose commands carry whole lines all values end with CRLF. |
| `Cas.StoredCasMeansUntouched` | applications/memcached_kernel/memcached_SendBuffer.c:1715-1882 | A compare-and-swap that is STORED finds the very entry that bore its token, untouched ever since: no update is lost. |
| `Cas.OneCasPerToken` | applications/memcached_kernel/memcached_SendBuffer.c:1715-1882 | Of all compare-and-swaps with one token for a key at most one is STORED, in any run. |
| `Cas.IdNamesOneValue` | applications/memcached_kernel/memcached/items.c:111-116 | A CAS id names one key and one value for the whole of a run. |
| `Cas.NextMoves` | applications/memcached_kernel/memcached_SendBuffer.c:1715-2504 | A store or an increment leaves an entry alone, takes it out, or gives it a new CAS id, and touches one key. |
| `Cas.GoneForGood` | applications/memcached_kernel/memcached_SendBuffer.c:1715-2504 | A CAS id that a key no longer bears it never bears again. |
| `Cas.SameIdSameEntry` | applications/memcached_kernel/memcached_SendBuffer.c:1715-2504 | While a key bears a CAS id its value does not change. |
| `Cas.Server.Perform` | applications/memcached_kernel/memcached_SendBuffer.c:1715-2504 | Whatever command the object serves, it takes the step of the state machine and keeps the ids apart. |
| `Cas.Drive` | applications/memcached_kernel/memcached_SendBuffer.c:1715-2504 | A fresh object serving any commands goes through a run. |
| `Chunks.Item.AllocChunk` | applications/memcached_kernel/memcached/items.c:220-259 | A new chunk at the end of the chain with room for what remains, or nothing for want of memory. |
| `Chunks.Item.CopyFlat` | applications/memcached_kernel/memcached_SendBuffer.c:1657-1677 | The chunk-by-chunk copy from a flat item appends the bytes of the flat copy, and fails exactly when an allocation does. |
| `Chunks.Item.CopyChunked` | applications/memcached_kernel/memcached_SendBuffer.c:1626-1656 | So does the copy from a chunked item, for every layout of both chains. |
| `Chunks.JoinChunked` | applications/memcached_kernel/memcached_SendBuffer.c:1683-1707 | Append gives the old value without its CRLF followed by the new one, prepend the reverse, into a chunked item. |
| `Chunks.JoinFlat` | applications/memcached_kernel/memcached_SendBuffer.c:1683-1707 | The same into a flat item. |
| `Transmit.AddIovAppends` | applications/memcached_kernel/memcached_SendBuffer.c:1168-1178 | An iovec puts its bytes at the end of the response. |
| `Transmit.AddChunkedAppends` | applications/memcached_kernel/memcached_SendBuffer.c:1180-1184 | A chunked iovec leaves a response that can be sent exactly when it is not the first, and then its bytes are at the end. |
| `Transmit.TransmitPre` | applications/memcached_kernel/memcached_SendBuffer.c:2716-2778 | The gathered iovecs are a prefix of the pending byte stream, across the IOV_MAX cut-off, and none only if nothing is pending. |
| `Transmit.GatherChunks` | applications/memcached_kernel/memcached_SendBuffer.c:2730-2758 | A chunked item partly sent is gathered from where it was left. |
| `Transmit.Consume` | applications/memcached_kernel/memcached_SendBuffer.c:2802-2824 | The loop over the iovecs of a response takes exactly the bytes sent off its front. |
| `Transmit.TransmitPost` | applications/memcached_kernel/memcached_SendBuffer.c:2785-2833 | Exactly the bytes sent leave the stream, and the queue then starts with unsent bytes or is empty. |
| `Transmit.Conn.Transmit` | applications/memcached_kernel/memcached_SendBuffer.c:2844-2879 | Whatever the socket takes, the bytes on the wire and those still pending are all the bytes queued, in order; a complete transmit has sent them all. |
| `Bundles.Thread.FindFree` | applications/memcached_kernel/memcached_SendBuffer.c:1197-1205 | The search around the slots finds a free one exactly when there is one. |
| `Bundles.Thread.Allocate` | applications/memcached_kernel/memcached_SendBuffer.c:1191-1250 | A slot that nobody has, from an open bundle or a new one, or nothing for want of memory; no other slot changes. |
| `Bundles.Thread.Free` | applications/memcached_kernel/memcached_SendBuffer.c:1252-1298 | The slot is free again, no other slot changes, and the bundle is dropped exactly when that was its last slot in use and it is not the only open one. |
| `Bundles.Thread.OneEmpty` | applications/memcached_kernel/memcached_SendBuffer.c:1252-1298 | At most one bundle without a slot in use is kept. |
| `Bundles.Thread.OpenMeansFree` | applications/memcached_kernel/memcached_SendBuffer.c:1191-1298 | A bundle is on the open list exactly when one of its slots is free, and its count is the number of slots in use. |
| `Bundles.SecondAllocation` | applications/memcached_kernel/memcached_SendBuffer.c:1191-1225 | The assertion that the open list is empty when no slot is found holds after a first allocation exactly for two slots or more. |
| `Bip.BipBuf.UsedIsLength` | applications/memcached_kernel/memcached/bipbuffer.c:23-40 | What is reported as used is the length of the queue. |
| `Bip.BipBuf.Request` | applications/memcached_kernel/memcached/bipbuffer.c:77-89 | A place for the bytes that touches nothing queued, exactly when there is room. |
| `Bip.BipBuf.Push` | applications/memcached_kernel/memcached/bipbuffer.c:91-107 | The bytes written there join the end of the queue. |
| `Bip.BipBuf.Offer` | applications/memcached_kernel/memcached/bipbuffer.c:109-128 | The bytes are queued behind the others, or nothing changes; a region peeked stays intact. |
| `Bip.BipBuf.PeekAll` | applications/memcached_kernel/memcached/bipbuffer.c:142-149 | A non-empty beginning of the queue, whenever there is one. |
| `Bip.BipBuf.Poll` | applications/memcached_kernel/memcached/bipbuffer.c:151-181 | Polls of every length: refused, and nothing changes; or the cursors move on, and are in order exactly if no more than region A was asked for, when the front leaves the queue. |
| `Bip.PollSettles` | applications/memcached_kernel/memcached/bipbuffer.c:151-181 | Once region A was peeked with region B in use, its poll leaves the whole queue in region A, whatever was pushed in between. |
| `Bip.PollKeepsOrder` | applications/memcached_kernel/memcached/bipbuffer.c:151-181 | A poll the code carries out keeps the cursors in order exactly when it asks for no more than region A holds. |
| `Bumps.BumpBuf.BumpAsync` | applications/memcached_kernel/memcached/items.c:1311-1333 | One more entry exactly when there is room, one more dropped otherwise; what was queued stays put. |
| `Bumps.BumpBuf.Drain` | applications/memcached_kernel/memcached/items.c:1340-1373 | With producers at work between peek and poll, the bumps in front are taken care of once, in order; of the offers a beginning is queued and the rest counted as dropped. |
| `CrcBits.PiecesAreWhole` | applications/memcached_kernel/memcached/crc32c.c:392-423 | Feeding a message in pieces is feeding it whole. |
| `CrcBits.ByteStepIsByteOp` | applications/memcached_kernel/memcached/crc32c.c:368-390 | Eight bitwise steps are linear, and only the low byte needs them. |
| `CrcPolynomials.RegisterIsRemainder` | applications/memcached_kernel/memcached/crc32c.c:368-390 | A shift register with feedback holds the remainder of the message times x^32, with its first contents added in front, by the polynomial fed back. |
| `CrcPolynomials.OneRemainder` | applications/memcached_kernel/memcached/crc32c.c:368-390 | No dividend has two remainders below power 32. |
| `CrcDivision.PolyIsGenerator` | applications/memcached_kernel/memcached/crc32c.c:48-49 | The constant of the code is the polynomial of section 12.1 of RFC 3720 without its highest power, in reversed bit order. |
| `CrcDivision.CrcIsRemainder` | applications/memcached_kernel/memcached/crc32c.c:368-423 | The CRC-32C of a message that continues another, complemented, is the remainder of that division, bits taken lowest first. |
| `CrcAlgebra.Fold` | applications/memcached_kernel/memcached/crc32c.c:133-136 | A message in two parts: the register of the first is shifted past the second and added. |
| `CrcAlgebra.TimesIs` | applications/memcached_kernel/memcached/crc32c.c:61-72 | The matrix of a linear operator stands for that operator. |
| `CrcSlices.EightByTables` | applications/memcached_kernel/memcached/crc32c.c:405-417 | Eight bytes by eight lookups, the first four with the register mixed in. |
| `CrcMatrix.MatrixTimes` | applications/memcached_kernel/memcached/crc32c.c:61-72 | The loop over the bits of the vector is the product. |
| `CrcMatrix.MatrixSquare` | applications/memcached_kernel/memcached/crc32c.c:74-80 | Squaring gives the matrix of twice as many zeros. |
| `CrcMatrix.ZerosOp` | applications/memcached_kernel/memcached/crc32c.c:84-116 | Repeated squaring gives the matrix of len zero bytes, len rounded down to a power of two. |
| `CrcMatrix.ZerosTables` | applications/memcached_kernel/memcached/crc32c.c:120-130 | Four tables, one for each byte of the operand, for those zeros. |
| `CrcMatrix.ShiftIs` | applications/memcached_kernel/memcached/crc32c.c:133-136 | Four lookups append the zeros. |
| `CrcSoftware.InitTables` | applications/memcached_kernel/memcached/crc32c.c:368-390 | Entry n of table k is byte n with k + 1 zero bytes after it. |
| `CrcSoftware.SwLittle` | applications/memcached_kernel/memcached/crc32c.c:392-423 | The slicing-by-eight loop is the bit-by-bit CRC-32C for every buffer, alignment and starting CRC. |
| `CrcHardware.Folded` | applications/memcached_kernel/memcached/crc32c.c:195-196 | The two shifts that put three streams together. |
| `CrcHardware.InitHw` | applications/memcached_kernel/memcached/crc32c.c:154-157 | The shift tables for the two block sizes. |
| `CrcHardware.Hw` | applications/memcached_kernel/memcached/crc32c.c:160-245 | The three-way folded loop is the bit-by-bit CRC-32C for every buffer, alignment and starting CRC. |
| `Md5Spec.CountAdds` | applications/memcached_kernel/memcached/md5.c:333-337 | The update of the two words adds eight times the length modulo 2^64. |
| `Md5Spec.OffsetIs` | applications/memcached_kernel/memcached/md5.c:327-328 | The offset the code computes is the number of bytes past the last whole block. |
| `Md5Spec.PadIsLeast` | applications/memcached_kernel/memcached/md5.c:375-376 | No shorter padding will do. |
| `Md5Spec.PaddedIsWhole` | applications/memcached_kernel/memcached/md5.c:361-381 | A padded message is made of whole blocks. |
| `Md5Spec.PaddedBits` | applications/memcached_kernel/memcached/md5.c:361-381 | Bit by bit a padded message is the message, a one, fewer than 512 zeros up to 448 modulo 512, and the number of its bits modulo 2^64, low byte first. |
| `Md5Spec.StartBytes` | applications/memcached_kernel/memcached/md5.c:313-320 | The four words at the start are the bytes of section 3.3 of RFC 1321. |
| `Md5.State.Append` | applications/memcached_kernel/memcached/md5.c:323-358 | The state stands for the message so far: its whole blocks compressed, the rest in the buffer, the bits counted. |
| `Md5.State.Finish` | applications/memcached_kernel/memcached/md5.c:361-381 | The state has taken exactly the blocks of the padded message, and the sixteen bytes are its four words, low byte first. |
| `Md5Spec.DigestTellsChains` | applications/memcached_kernel/memcached/md5.c:379-380 | No two states have the same sixteen bytes. |
| `Md5.Hash` | applications/memcached_kernel/memcached/md5.c:313-381 | A message in any pieces has the digest of the one-shot padded message of sections 3.1 to 3.5 of RFC 1321, for any compression function. |
| `Pipeview.SortSorts` | gem5/util/o3-pipeview.py:167-168 | The sort gives the same instructions in the order of their sequence numbers. |
| `Pipeview.DrainedAll` | gem5/util/o3-pipeview.py:154-170 | Every instruction of the trace is taken from the queue once. |
| `Pipeview.InOrderIff` | gem5/util/o3-pipeview.py:154-170 | Instructions are taken in order exactly when each comes after no more instructions that belong behind it than the queue then holds. |
| `Pipeview.InOrder` | gem5/util/o3-pipeview.py:45-50 | If none comes after more than min_threshold of them, they are taken in order. |
| `Pipeview.ThresholdIsTight` | gem5/util/o3-pipeview.py:45-50 | With one more the order can be lost, for every pair of thresholds, in a trace of distinct sequence numbers. |
| `Pipeview.View` | gem5/util/o3-pipeview.py:154-184 | What is printed is what lies within the bounds asked for, in order if every instruction is in time, and exactly then if all pass. |
| `Base64.LetterValue` | applications/memcached_kernel/memcached/base64.c:53-79 | The decoding table undoes the encoding table. |
| `Base64.RoundTrip` | applications/memcached_kernel/memcached/base64.c:93-205 | Decoding undoes encoding. |
| `Base64.EncodingLength` | applications/memcached_kernel/memcached/base64.c:104-135 | Four letters for every three bytes begun. |
| `Base64Bits.EncodingSpells` | applications/memcached_kernel/memcached/base64.c:93-139 | Letter i of an encoding is the letter of the alphabet of RFC 4648 for the six bits of the data from bit 6i on, or padding once there are none. |
| `Base64Bits.DecodingSpells` | applications/memcached_kernel/memcached/base64.c:150-205 | Character i of the blocks without padding stands for the six bits from bit 6i on of what is decoded. |
| `Base64Bits.DecodingLength` | applications/memcached_kernel/memcached/base64.c:150-205 | A text is refused exactly if the first block with padding has more than two padding characters; otherwise three bytes for every block before it and one or two for itself. |
| `Base64.Encode` | applications/memcached_kernel/memcached/base64.c:93-139 | With the room it asks for, the encoder leaves the encoding and a terminator and touches nothing else; without, it touches nothing. |
| `Base64.Decode` | applications/memcached_kernel/memcached/base64.c:150-205 | The decoder leaves what the valid characters stand for, or nothing for bad padding, a bad count or too small a buffer. |
| `Base64.JunkIsIgnored` | applications/memcached_kernel/memcached/base64.c:158-205 | Whatever invalid characters stand between the letters, decoding an encoded text gives the bytes back. |
| `Base64.ThereAndBack` | applications/memcached_kernel/memcached/base64.c:93-205 | What the encoder leaves in its buffer the decoder turns back into the source. |

## Findings

Places where the code does not have a property one might expect of it, each with the exact condition under which it does.

| property | shown by | holds exactly when |
|---|---|---|
| A delete keeps the page store's global counters equal to the sums over the pages (`extstore.c:664-697`). The page's counters stop at zero, the global ones do not. | `ExtstoreBooks.DeleteBalances`, with the runs `OverReportingDelete` and `FirstObjectDeleted` | the delete is refused, or reports no more bytes and objects than the page holds |
| `lru_pull_tail` gives back or hands out every reference it takes (`items.c:1102-1276`). | `ItemsRuns.NeverLeaksIff`, with `ReferenceLeaks` | it is not asked to return an item on a list other than COLD or together with eviction. The only caller that asks (`storage.c:484`) passes COLD_LRU and does not evict, so this is a hazard of the interface and not something that happens |
| An active WARM item that `lru_pull_tail` rescues stays on its list (`items.c:1186-1196`). | `ItemsPulled.LiftedStaysIff`, with `LiftedIsDemoted` | the list has five items or more, or the walk stops before its head, or the item is not the last one lifted bar the head, or what is left of the list is within its share and the item young enough. Otherwise the walk goes on from the head to the items it has just put in front of it, meets the item again, not active any more, and moves it to COLD |
| An object just written can be read (`extstore.c:545-619`). | `ExtstoreAnswers.WriteTaken` | its page is not closed: a write looks at `active` only |
| `bipbuf_poll` keeps the cursors in order (`bipbuffer.c:151-181`). It checks against the size of the buffer and not the end of the region. | `Bip.PollKeepsOrder` | it polls no more than region A holds, as the one consumer does |
| Instructions leave the viewer's queue in the order of the sequence numbers (`o3-pipeview.py:154-184`). | `Pipeview.InOrderIff`, `ThresholdIsTight` | each instruction comes after no more instructions that belong behind it than the queue then holds; `min_threshold` of them is always safe, one more is not. For what is printed (`Pipeview.View`) the condition is sufficient, and necessary when every instruction passes the filters. The comment at `o3-pipeview.py:45-50` says that anything later than `min_threshold` places comes out of order; the code is more tolerant, because the queue often holds more |
| A lookup goes on finding the newest item inserted under a key, whatever the maintenance thread does (`assoc.c:152-264`). | `Assoc.NewestFoundIff`, with `DuplicateFlips` | the key was absent when it was inserted, as the comment at `assoc.c:152` demands; otherwise migration brings the older item to the front |
| A chunked iovec is sent as its chunks (`memcached_SendBuffer.c:1180-1184`). | `Transmit.AddChunkedAppends` | it is not the first iovec of its response: index 0 in `chunked_data_iov` means that there is none |
| One turn of `lru_maintainer_bumps` takes care of every bump queued before it (`items.c:1340-1373`). | `ItemsBumps.Maintainer.Turn`, `Turns` | region B is empty at the peek; two turns always do |
| The search for a free slot succeeds in an open bundle (`memcached_SendBuffer.c:1191-1225`). | `Bundles.SecondAllocation` | a bundle has two slots or more |
| Every page of the page store is on some list (`extstore.c:344-354`). | `ExtstoreTheorems.EveryPageOnOneList` | it is not page 0: the loop that fills the free lists stops before it |

## Left out

- Slab allocator, item lock table, worker threads, sockets, libevent and TLS, protocol parsing, statistics output, and
  warm restart: input and output, or code whose contracts are parameters here.
- The DPDK request path of `memcached_SendBuffer.c:146-279`: it links items without looking for an existing key and
  keeps its references, so it is not a client of the contracts above.
- Interleaving of pages between devices in `extstore_init` (`extstore.c:315-338`): the free bucket of each page is a
  parameter.
- Crawler clients and dumps, the walk of the crawler over the hash table, and several crawlers sharing one limit.
- UDP transmit, and the retry on a full socket: a failed send changes nothing in the model.
- Tail repair, and the parts of `items.c` for items whose values are in external storage.
- Big-endian and ARM forms of CRC-32C; the MD5 compression function.
- Base64 lengths that overflow `size_t`.
- Easy members that add nothing hard: `cache.c`, `itoa_ljust.c`, `assoc_iterate`, the hash functions.
- `Assoc`, `ExtstoreEngine` and `ItemsCode` keep chains, lists and tables as sequences that the methods reassign. Update
  of `h_next` in place is not modelled; `prev` and `next` of LRU lists and of bundles are, in `Lru`, `ItemsHeap` and
  `Bundles`.
- ItemsHeap.Heap.Link: covers the index and the lists; flags and reference counts of the item are those of the model state it is given. Whole runs on the index and lists are in `ItemsReplay`.
- ItemsHeap.Heap.Unlink: covers the index and the lists, as above.
- ItemsPull.PullTailBalances: its condition names the item the call stops at; the condition on the arguments alone is in `ItemsRuns.NeverLeaksIff`.
- ExtstoreBooks.EvictsTheOldest: speaks of a maintenance turn with no other thread in between; with others in between see `ExtstoreEviction.EvictsOldestSeen`.
- Lru.List.Crawl: speaks of a list nobody else works on; what each crawl step keeps on its own is in `Lru.List.CrawlQ`.
- ExtstoreBooks.PassFindsOldest: speaks of a scan with no other thread in between; with others in between see `ExtstoreEviction.TurnSoFar`.
- ExtstoreEngine.Engine.MaintTurn: a turn in one go; the steps of a turn with others in between are those of `ExtstoreEngine.Engine.Perform` and `ExtstoreEviction.EvictsOldestSeen`.
- ItemsBumps.Maintainer.Turn: one bump buffer; with one per worker thread the order of acceptance is kept within each.
