# Verified models of memcached and uthash

Dafny models of the stateful parts of the memcached 1.4.36 sources under `Experiments/memcached` and of
`RSApi/uthash.h`, with proofs of what these parts promise. Check everything with `dafny verify dfyconfig.toml`.

Code that changes things in place is modelled as classes with those fields, arrays and linked nodes, and each method
is proved against a function or a sequence that says what it does. Where threads meet, a step relation has one step
for each lock operation or other point where another thread can come in, and an invariant is proved over every run.

| file | component | what is modelled and proved |
|---|---|---|
| `BipBuffer.dfy`, `BipUsers.dfy` | `bipbuffer.c`, `logger.c`, bump buffers of `items.c` | the two-region buffer is a bounded queue; a reader that parses peeked bytes without the lock sees whole, unchanged entries in every run |
| `Assoc.dfy`, `AssocLocks.dfy`, `AssocMaps.dfy` | `assoc.c`, item locks of `thread.c` | the expanding hash table is a finite map at every point of a migration; one item lock is enough, exactly because the lock table is narrower: in every interleaving a locked chain holds the map's entries |
| `PauseThreads.dfy` | `pause_threads` of `thread.c` | while the world is stopped, nobody but the pausing thread can take a step |
| `LruQueue.dfy` | LRU lists of `items.c`, the crawl of `crawler.c` | doubly linked lists with a marker that walks backwards; every staying item is visited exactly once |
| `ItemIndex.dfy`, `ItemRuns.dfy` | bookkeeping of `items.c` | flag, hash table, LRU lists, totals and reference counts agree in every reachable state |
| `PullTail.dfy`, `PullOutcome.dfy` | `lru_pull_tail` | what it loses, evicts and moves, foretold from the list before the call, and what it returns |
| `ItemOps.dfy`, `ItemMeaning.dfy`, `ItemAlloc.dfy`, `CasRuns.dfy`, `ItemStore.dfy` | `do_item_get`, `do_item_update`, `do_item_alloc_pull`, `do_store_item` | the store refines a map of live entries; of two `cas` stores of one key with one token at most one is told STORED, in any run of operations |
| `Slabs.dfy`, `SlabAnswers.dfy`, `SlabAllocator.dfy`, `SlabFreelist.dfy`, `SlabRuns.dfy` | `slabs.c` | chunks and pages are each in one place, when there is a chunk or a page and when not, chunk counts add up, and the memory limit |
| `SlabMover.dfy`, `SlabRescue.dfy`, `SlabPages.dfy` | the slab mover of `slabs.c` | in every interleaving with workers a page is really empty at `done`, for the mover and for the allocator; no chunk is lost, and an item that is rescued keeps exactly one entry |
| `Iov.dfy` | `add_iov`, `transmit` of `memcached.c` | any buffers and any partial writes: bytes sent and bytes pending are the response |
| `UtHash.dfy`, `UtHashTable.dfy`, `UtHashSort.dfy` | `uthash.h` | add, delete, bucket doubling and the merge sort keep the invariant of `HASH_FSCK`; the sort is stable |
| `Jenkins.dfy` | `jenkins_hash.c` | three ways to read a key, one hash value; `mix` is a bijection |

## Where the code does not keep a promise

- `lru_pull_tail` is documented to return the number of items removed, expired or evicted. With
  `LRU_PULL_CRAWL_BLOCKS` it returns 0 at a crawler's marker even after it has reclaimed items:
  `PullTail.BlockedForgetsReclaims` gives such a pull. The number is right exactly if not all of these hold
  (`PullTail.ReturnedIsExact`, `PullTail.ForgetsMeans`): the call must stop at a marker, the class is not 0, and some
  marker has fewer entries behind it than the pull has tries, all of which the pull passes over and one of which it
  reclaims.
- `memory_allocate` adds the size to `mem_malloced` even when `malloc` has failed, and the class then still owns no page,
  so that the next request passes the test again: `SlabRuns.RefusedRunPassesLimit` passes any limit so,
  `SlabRuns.FailedMallocPassesLimit` the usual one. `Slabs.NewPageKeepsLimit` says exactly when a request keeps the
  bound, and `SlabRuns.EveryRunKeepsOrder` states the bound with the bytes of failed requests.
- With `use_cas` off the token that a client sends is not kept and every `cas` id reads as 0: every `cas` store of a live
  key is accepted, whatever the token (`CasRuns.WithoutIdsAllWin`, and `CasRuns.BothAreStored` for a run in which two
  are). `CasRuns.OneWinner` is about runs with ids.
- `bipbuf_poll` checks its length against the end of the buffer and not against region A: `BipBuffers.PollIsDequeue`
  says exactly which polls leave the cursors in order. Every caller polls what it has peeked.

## Model

| member | source | states |
|---|---|---|
| BipBuffers.PushIsAppend | Experiments/memcached/bipbuffer.c:91-107 | A push that fits appends the bytes already stored behind the queue, one that does not changes nothing; the free space shrinks by at most the pushed length, even when the writer switches to region B |
| BipBuffers.FillKeepsContents | Experiments/memcached/bipbuffer.c:77-89 | Writing through a requested pointer leaves both regions, and so the queue, as they were |
| BipBuffers.OfferIsEnqueue | Experiments/memcached/bipbuffer.c:109-128 | An offer that fits appends exactly its bytes to the queue, one that does not changes nothing; it ends one region, and region A only while B is empty |
| BipBuffers.RequestAnswers | Experiments/memcached/bipbuffer.c:77-89 | A request is granted exactly if the bytes behind the region that is written are inside the buffer and of neither region, and it is granted there |
| BipBuffers.PollIsDequeue | Experiments/memcached/bipbuffer.c:151-180 | A poll of at most region A drops exactly that prefix of the queue; the cursors stay in order if and only if the poll is refused or at most that long |
| BipBuffers.DrainedMeansAllFree | Experiments/memcached/bipbuffer.c:23-74 | Empty by cursors exactly when the queue is empty; then the whole size is free; used and unused never exceed the size |
| BipBuffers.StepKeepsPeeked | Experiments/memcached/bipbuffer.c:77-128 | One request, write, push or offer leaves the peeked bytes of region A in place, byte for byte |
| BipBuffers.RunKeepsPeeked | Experiments/memcached/bipbuffer.c:77-128 | The same for any number of writer steps |
| BipBuffers.PeekThenPoll | Experiments/memcached/bipbuffer.c:142-180 | Peek all, any writer steps, poll of the peeked size: the poll succeeds, the bytes are the peeked ones, and exactly they leave the queue |
| BipBuffers.BipBuffer.constructor | Experiments/memcached/bipbuffer.c:42-56 | A new buffer of the given size holds nothing |
| BipBuffers.BipBuffer.Unused | Experiments/memcached/bipbuffer.c:23-30 | The free contiguous bytes, at most what the queue leaves |
| BipBuffers.BipBuffer.Used | Experiments/memcached/bipbuffer.c:37-40 | The length of the queue |
| BipBuffers.BipBuffer.IsEmpty | Experiments/memcached/bipbuffer.c:63-66 | Whether the queue is empty |
| BipBuffers.BipBuffer.CheckForSwitchToB | Experiments/memcached/bipbuffer.c:70-74 | The switch to region B as the model of states has it |
| BipBuffers.BipBuffer.Request | Experiments/memcached/bipbuffer.c:77-89 | An offset with that many free bytes behind it, outside both regions, if there are as many |
| BipBuffers.BipBuffer.Push | Experiments/memcached/bipbuffer.c:91-107 | The state is that of Push, the data untouched, and the result the length or 0 |
| BipBuffers.BipBuffer.Store | Experiments/memcached/bipbuffer.c:77-89 | Storing at a requested offset keeps the queue |
| BipBuffers.BipBuffer.Offer | Experiments/memcached/bipbuffer.c:109-128 | The bytes are appended to the queue or, without room, nothing happens |
| BipBuffers.BipBuffer.Peek | Experiments/memcached/bipbuffer.c:130-140 | The start of region A, if something is there and the bounds test passes |
| BipBuffers.BipBuffer.PeekAll | Experiments/memcached/bipbuffer.c:142-149 | The whole of region A, or nothing when the queue is empty |
| BipBuffers.BipBuffer.Poll | Experiments/memcached/bipbuffer.c:151-180 | The polled bytes are the front of the queue and leave it; the result is their offset |
| BipUsers.ParseSpan | Experiments/memcached/logger.c:312-327 | The parsing loop over a span of whole entries finds exactly the entries up to the one at which the last watcher leaves, and ends on the boundary behind them: at the size unless it stopped early |
| BipUsers.NextEntry | Experiments/memcached/logger.c:312-324 | The bytes under a reader that walks without the lock are the next queued entry, whole and unchanged |
| BipUsers.ProduceQueues | Experiments/memcached/logger.c:631-692 | Logging one entry, as request of the maximum and push of the real length, puts the entry whole at the end of the queue; none is split between the regions |
| BipUsers.ProduceKeepsInv | Experiments/memcached/items.c:1176-1198 | A producer step keeps the invariant of buffer, reader and references |
| BipUsers.PollKeepsInv | Experiments/memcached/logger.c:328-333 | At the poll the reader stands exactly at the end of its span and has seen every entry of it, and the poll keeps the invariant |
| BipUsers.ParseKeepsInv | Experiments/memcached/items.c:1222-1229 | Handling one entry gives back exactly its reference and keeps the invariant |
| BipUsers.StepKeepsInv | Experiments/memcached/logger.c:296-339 | Every step of producer or reader keeps the invariant |
| BipUsers.RunKeepsInv | Experiments/memcached/items.c:1176-1238 | The invariant holds in every reachable state |
| BipUsers.EveryRunDeliversWholeEntries | Experiments/memcached/items.c:1176-1238 | In every run the entries handled are a prefix of those produced, the references held are one for each entry still queued, the walk never passes the end of its span, and a drained buffer means everything was handled and released |
| BipUsers.UndisturbedRead | Experiments/memcached/logger.c:296-339 | A reader that nobody disturbs handles all entries of region A in order, gives back their references, and leaves those of region B |
| BipUsers.Watcher.constructor | Experiments/memcached/logger.c:709-750 | A new watcher has been greeted, if its buffer has room for that, and has skipped nothing |
| BipUsers.Watcher.MakeRoom | Experiments/memcached/logger.c:246-252 | Flushes are made one after the other until there is room, none if it is there at once; the client is given up only after one that took nothing, because the socket took nothing or nothing was left; what leaves the buffer meanwhile is its front |
| BipUsers.Watcher.Flush | Experiments/memcached/logger.c:411-441 | One write takes a prefix of region A, at most what the socket takes, and that prefix leaves the queue; the watcher is closed exactly by a write of no bytes or an error other than would-block |
| BipUsers.Watcher.Drop | Experiments/memcached/logger.c:437-440 | The poll after a partial write removes exactly the bytes written |
| BipUsers.Watcher.WriteEntry | Experiments/memcached/logger.c:246-273 | The line is sent exactly if the client was not given up, which only a flush that took nothing does, and the skip note fits; then it is appended whole, behind the note if lines were skipped, else the skip count grows; a watcher closed meanwhile gets no line |
| BipUsers.Watcher.Prepare | Experiments/memcached/logger.c:246-252 | Afterwards the room is there, or the client is given up after a flush that took nothing |
| BipUsers.Watcher.Deliver | Experiments/memcached/logger.c:261-273 | With the requested room neither the push of the note nor the offer of the line can fail |
| BipUsers.Watcher.StoreAndPush | Experiments/memcached/logger.c:261-269 | Text written through a requested pointer and pushed is appended, and the room shrinks by at most its length |
| Assoc.HomeAnswersLookup | Experiments/memcached/assoc.c:78-102 | The chain that the choice between the two tables leads to holds the entry of the map for the key, and no other item with it |
| Assoc.InsertRepresents | Experiments/memcached/assoc.c:156-169 | Linking in front of the home chain is adding to the map, at every point of an expansion |
| Assoc.DeleteRepresents | Experiments/memcached/assoc.c:182-197 | Unlinking from the home chain is removing from the map, at every point of an expansion |
| Assoc.ExpandRepresents | Experiments/memcached/assoc.c:126-145 | Starting an expansion leaves the map as it is |
| Assoc.MoveStarts | Experiments/memcached/assoc.c:217-227 | Before the first item of a bucket moves, every entry is in one place |
| Assoc.MoveOne | Experiments/memcached/assoc.c:227-232 | Moving one item keeps every entry of the map in exactly one chain |
| Assoc.MoveEnds | Experiments/memcached/assoc.c:234-246 | A bucket that has been emptied is counted; the map is unchanged, and when the last one has been, the old table is empty |
| Assoc.HomeIsRemovable | Experiments/memcached/assoc.c:107-123 | The item found on a home chain is on no other chain of either table |
| Assoc.InsertHolds | Experiments/memcached/assoc.c:156-180 | hash_items and the set of linked items grow with the map |
| Assoc.DeleteHolds | Experiments/memcached/assoc.c:182-197 | hash_items and the set of linked items shrink with the map |
| Assoc.HashTable.constructor | Experiments/memcached/assoc.c:63-76 | A new table stands for the empty map |
| Assoc.HashTable.Walk | Experiments/memcached/assoc.c:92-99 | The walk ends at the first item with the key, or at the end of the chain when there is none |
| Assoc.HashTable.Head | Experiments/memcached/assoc.c:82-88 | The bucket chosen heads the home chain of the hash value |
| Assoc.HashTable.Find | Experiments/memcached/assoc.c:78-102 | The answer of the map, at every point of an expansion |
| Assoc.HashTable.FindBefore | Experiments/memcached/assoc.c:107-123 | The predecessor of the item in its chain, or none if the bucket itself points to it |
| Assoc.HashTable.LinkFront | Experiments/memcached/assoc.c:164-168 | The item becomes the head of a bucket; all other chains of the table are as before |
| Assoc.HashTable.LinkAtHome | Experiments/memcached/assoc.c:161-169 | The item is linked in front of its home chain and nowhere else |
| Assoc.HashTable.Insert | Experiments/memcached/assoc.c:156-180 | The map gains the item and hash_items one; an expansion is asked for exactly when none runs and the load limit is passed |
| Assoc.HashTable.Unlink | Experiments/memcached/assoc.c:194-196 | The item leaves its bucket, and no other item but its predecessor changes |
| Assoc.HashTable.UnlinkAtHome | Experiments/memcached/assoc.c:182-197 | The item leaves its home chain, and all other chains of both tables are as before |
| Assoc.HashTable.FindAndUnlink | Experiments/memcached/assoc.c:182-197 | The item of the key leaves the tables |
| Assoc.HashTable.Delete | Experiments/memcached/assoc.c:182-202 | The map loses the key and hash_items drops by one |
| Assoc.HashTable.Expand | Experiments/memcached/assoc.c:126-145 | The map is unchanged; with memory the table has twice the buckets and expands from bucket 0, without memory nothing changes |
| Assoc.HashTable.MoveFirst | Experiments/memcached/assoc.c:228-231 | One item moves to the front of its new bucket |
| Assoc.HashTable.MigrateBucket | Experiments/memcached/assoc.c:226-250 | One bucket is migrated if its lock is free; the map is unchanged, and the expansion ends exactly when every bucket has been, with the old table empty |
| Assoc.HashTable.FinishBucket | Experiments/memcached/assoc.c:234-246 | The emptied bucket is counted, and the old table goes when it was the last |
| Assoc.HashTable.MigrateBatch | Experiments/memcached/assoc.c:217-256 | One bulk move: as many buckets as locks were granted, and the end of the expansion exactly when that reaches the last one |
| AssocLocks.OthersKeepHome | Experiments/memcached/assoc.c:222-246 | While a worker holds the item lock of a hash value, no step of any other thread changes the table chosen for it or its chain |
| AssocLocks.StepKeepsInv | Experiments/memcached/assoc.c:210-275 | Every step of workers and maintenance thread keeps the locking invariant |
| AssocLocks.RunKeepsInv | Experiments/memcached/assoc.c:210-275 | The invariant holds in every reachable state |
| AssocLocks.SplitReadsChooseRight | Experiments/memcached/assoc.c:82-88 | Though expanding and expand_bucket are read in separate steps, the worker always stands at the chain a lookup would choose at that moment |
| AssocLocks.LockedChainIsStable | Experiments/memcached/thread.c:90-108 | From lock to unlock, over any steps of others, neither the choice nor the chain changes |
| AssocLocks.DifferentBuckets | Experiments/memcached/assoc.c:222-225 | Hash values with different item locks are in different buckets of any table with at least as many bits |
| AssocLocks.NarrowIsExact | Experiments/memcached/thread.c:712-717 | Different locks mean different buckets of both tables if and only if the lock table is narrower than the new table, which is the check made at start-up |
| AssocLocks.StartupStarts | Experiments/memcached/thread.c:696-720 | Whenever memcached_thread_init goes on, it has chosen a lock table that the locking argument needs |
| AssocMaps.LinkKeepsMoving | Experiments/memcached/assoc.c:156-169 | A worker may link an item in the middle of another bucket’s move: every entry of the map stays in exactly one place |
| AssocMaps.CutKeepsMoving | Experiments/memcached/assoc.c:182-197 | So may it unlink one |
| AssocMaps.StepKeepsMap | Experiments/memcached/assoc.c:210-275 | Every step of workers and maintenance thread keeps: the two tables stand for the map, or, while a bucket is being moved, every entry of it is in the old or the new bucket and not in both |
| AssocMaps.ChangeIsEnabled | Experiments/memcached/assoc.c:156-197 | The links and unlinks that the map allows are among the changes for which the locking argument was made |
| AssocMaps.RunKeepsMap | Experiments/memcached/assoc.c:210-275 | The same in every reachable state |
| AssocMaps.LockedChainAnswers | Experiments/memcached/assoc.c:78-102 | In every reachable state, in the middle of a move too, the chain at which a worker stands holds the map’s entry for each key with the locked hash value, and no other item with that key |
| AssocMaps.OthersKeepEntry | Experiments/memcached/thread.c:90-108 | No other thread changes the map at a key whose hash value is locked |
| AssocMaps.LockedEntryIsStable | Experiments/memcached/assoc.c:78-102 | From lock to unlock, over any steps of others, the chain is one and the same and answers a lookup with the entry that the map had at the lock: a find that walks it in any number of steps is atomic |
| AssocMaps.AllItemsMove | Experiments/memcached/assoc.c:227-232 | The maintenance thread, alone, moves all items of its bucket, and the map is the same |
| AssocMaps.UndisturbedMove | Experiments/memcached/assoc.c:217-256 | From the lock of a bucket to its release nothing stops the maintenance thread alone: the bucket is emptied and counted, the expansion ends exactly with the last one, and the tables stand for the same map |
| PauseThreads.StepKeepsInv | Experiments/memcached/thread.c:110-169 | Every lock operation, pipe write and pipe read keeps the invariant of the pause protocol |
| PauseThreads.RunKeepsInv | Experiments/memcached/thread.c:110-169 | The invariant holds in every reachable state |
| PauseThreads.StepKeepsCount | Experiments/memcached/thread.c:116-120 | init_count is always the number of workers registered since the last reset |
| PauseThreads.PausedMeansParked | Experiments/memcached/thread.c:127-169 | When pause_threads has returned, every worker is parked between its registration and the hang lock, and every background thread sleeps |
| PauseThreads.PausedMeansStopped | Experiments/memcached/assoc.c:269-271 | Until the resume nobody but the pausing thread can take a step, so nothing overlaps assoc_expand |
| LruQueue.Queue.constructor | Experiments/memcached/items.c:45-49 | A list without items |
| LruQueue.Queue.PushFront | Experiments/memcached/items.c:376-384 | The item is the new head of a well-formed list |
| LruQueue.Queue.TakeOut | Experiments/memcached/items.c:405-420 | The node leaves a well-formed list; a marker that has just popped off the head is unlinked without harm |
| LruQueue.Queue.LinkQ | Experiments/memcached/items.c:372-388 | The item is the new head, counted in sizes and sizes_bytes, and the crawl marker keeps its place |
| LruQueue.Queue.UnlinkQ | Experiments/memcached/items.c:403-424 | The item leaves the list and the totals; everything else and the crawl marker stay in order |
| LruQueue.Queue.LinkTailQ | Experiments/memcached/items.c:1534-1553 | A crawl starts with the marker behind all items |
| LruQueue.Queue.CrawlQ | Experiments/memcached/items.c:1578-1630 | One step swaps the marker with its predecessor and returns it; at the head it returns nothing and leaves the list in order without the marker |
| LruQueue.Queue.SwingForward | Experiments/memcached/items.c:1596-1629 | The list without the marker is unchanged |
| LruQueue.Queue.PopFront | Experiments/memcached/items.c:1585-1594 | The marker pops off the head when anything is behind it |
| LruQueue.Queue.Swing | Experiments/memcached/items.c:1599-1625 | The pointer shuffle exchanges marker and predecessor and nothing else |
| LruQueue.Queue.ClassDone | Experiments/memcached/crawler.c:308-311 | The list ends up well formed, with all its items and without the marker, wherever the crawl stopped |
| LruQueue.Queue.CrawlTurn | Experiments/memcached/crawler.c:351-359 | A turn ends the crawl exactly at the head or at the limit; else it returns the next item |
| LruQueue.StepKeepsSeen | Experiments/memcached/items.c:1578-1630 | A link, an unlink of another item or a crawl step keeps: each staying item is either returned once or still ahead once |
| LruQueue.RunKeepsSeen | Experiments/memcached/items.c:1578-1630 | The same for any number of steps |
| LruQueue.EachStayingItemOnce | Experiments/memcached/crawler.c:351-358 | Whatever is linked and unlinked meanwhile, an item that stays on the list is returned at most once, and exactly once when the crawl ends |
| LruQueue.FullCrawlReturnsEachOnce | Experiments/memcached/crawler.c:504-505 | Started at the tail and run to the end, the crawl returns every staying item exactly once |
| LruQueue.UndisturbedCrawl | Experiments/memcached/items.c:1578-1630 | With nothing linked or unlinked, the crawl visits the items from the tail on, one a step, and ends one step after the last |
| LruQueue.UnlinkIsStep | Experiments/memcached/items.c:403-424 | Unlinking the item at its place, which UnlinkQ does to the nodes, is the unlinking step of a run |
| ItemIndex.RetainValid | Experiments/memcached/items.c:862-865 | Taking a reference keeps the books |
| ItemIndex.ReleaseValid | Experiments/memcached/items.c:485-493 | Giving a reference back keeps the books; the item is freed exactly with its last reference, and never while linked |
| ItemIndex.AllocateValid | Experiments/memcached/items.c:245-340 | A new item with a key, a line end and one reference, on no list and not in the table, keeps the books |
| ItemIndex.MarkValid | Experiments/memcached/items.c:934-949 | New hit marks keep the books |
| ItemIndex.LinkValid | Experiments/memcached/items.c:432-452 | Linking keeps flag, hash table, LRU lists, totals and reference counts in agreement |
| ItemIndex.LinkedFacts | Experiments/memcached/items.c:403-424 | A linked item is on its list and in the table, and the counters cover it, so that none can underflow |
| ItemIndex.UnlinkValid | Experiments/memcached/items.c:454-493 | Unlinking keeps the books; the item is freed at once exactly if nobody holds it |
| ItemIndex.RelistValid | Experiments/memcached/items.c:510-538 | Moving an item to the head of a list of its class keeps the books |
| ItemRuns.StepKeepsValid | Experiments/memcached/items.c:341-547 | Every item operation keeps the books |
| ItemRuns.RunKeepsValid | Experiments/memcached/items.c:341-547 | The books agree in every reachable state |
| ItemRuns.EveryRunKeepsTheBooks | Experiments/memcached/items.c:341-547 | In every reachable state between operations: linked exactly if in the hash table exactly if on one and only one LRU list; refcount is one if linked plus the references held, and positive; sizes, sizes_bytes, curr_items and curr_bytes are the true counts and sums |
| ItemRuns.FreedWithLastReference | Experiments/memcached/items.c:341-353 | An item goes in exactly the step that drops its last reference, and is then on no list |
| PullTail.PerformSound | Experiments/memcached/items.c:1032-1136 | What a turn does to its item keeps the books, and the nodes of the list in step with them |
| PullTail.TurnSound | Experiments/memcached/items.c:997-1126 | Every turn of the loop keeps the books |
| PullTail.Run | Experiments/memcached/items.c:997-1126 | The loop ends, by tries and then nodes left towards the head, with the books in order |
| PullTail.RunTally | Experiments/memcached/items.c:997-1140 | Over the whole loop the number removed is that of items lost or moved, and no item is touched after one was moved |
| PullTail.PullTailMeaning | Experiments/memcached/items.c:978-1141 | Only expired or flushed items and at most one evicted COLD item are lost; at most one other item moves, to one list of its class; every other item keeps its place, data and reference count; the result counts exactly these unless a crawl marker stopped the pull; which items they are PullOutcome.PullMeans states |
| PullTail.ReturnedIsExact | Experiments/memcached/items.c:1000-1008 | The result is the number of items reclaimed, moved or evicted, if and only if not: the call must stop at a marker, the class is not 0, and the list, read from the tail as it is before the call, forgets reclaims within the tries |
| PullTail.ForgetsMeans | Experiments/memcached/items.c:997-1048 | What forgetting says of the list before the call: there is a marker with fewer entries behind it than tries, each of them is passed over (its lock is not got, or it is expired or flushed, or it is active on WARM), and at least one is reclaimed |
| PullTail.BlockedAtMarker | Experiments/memcached/items.c:1000-1005 | Only a pull that must not pass a crawler, on a list with a marker, is stopped |
| PullTail.BlockedForgetsReclaims | Experiments/memcached/items.c:1002-1005 | A concrete pull, over an expired item with a key and a line end and a marker in front of it, that reclaims the item and returns 0 |
| PullOutcome.RunOutlook | Experiments/memcached/items.c:997-1126 | From any turn of the loop on, index and list end up as a look at the list before the call foretells: item by item, list by list |
| PullOutcome.TurnStops | Experiments/memcached/items.c:1049-1123 | At the item it stops at the pull evicts, keeps warm, cools down or leaves it, exactly as mode, active mark, share and age say; a moved item heads its new list without the mark |
| PullOutcome.PullMeans | Experiments/memcached/items.c:978-1141 | Told from the state before: lost are exactly the items reclaimed on the way and, where the call evicts, the item it stops at; moved is exactly that item where it is to be kept warm or to cool down; all others are as they were but for bumps on WARM |
| PullOutcome.OutlookMeans | Experiments/memcached/items.c:997-1048 | The item it stops at is the first from the tail, within the tries, that it does not pass over and that no marker keeps it from; what it reclaims are the expired and flushed items it gets to before |
| PullOutcome.PullAnswers | Experiments/memcached/items.c:1049-1123 | On HOT, COLD and TEMP: evicted is exactly the first item not passed over, if the call evicts from COLD and eviction is on; it is moved to WARM exactly if active on HOT, or on COLD without the evict flag in a segmented LRU, and to COLD exactly if inactive on HOT with the list over its share or the item too old |
| ItemOps.JoinedValues | Experiments/memcached/memcached.c:2600-2624 | Appended or prepended data is the two values behind each other with one line end |
| ItemOps.FetchMeaning | Experiments/memcached/items.c:862-925 | A fetch returns and retains exactly what the map of live items holds for the key, and clients see no change of any entry |
| ItemOps.UpdateUnseen | Experiments/memcached/items.c:510-538 | An update of the access time moves no entry of the map; what it does to lists and marks ItemMeaning.UpdateMeaning states |
| ItemOps.UpdateValid | Experiments/memcached/items.c:510-538 | It keeps the books |
| ItemOps.HitValid | Experiments/memcached/items.c:926-951 | The hit marks and bumps of a fetch keep the books |
| ItemOps.LinkMeaning | Experiments/memcached/items.c:432-452 | Linking adds the entry with a new id, and changes no other |
| ItemOps.UnlinkMeaning | Experiments/memcached/items.c:454-493 | Unlinking removes the entry, and changes no other |
| ItemOps.PutMeaning | Experiments/memcached/items.c:540-547 | Replacing an item stores the new entry in place of the old, and changes no other |
| ItemOps.RefuseMeaning | Experiments/memcached/memcached.c:2640-2646 | A store that is refused leaves every entry as it was and gives back its reference |
| ItemOps.SwapMeaning | Experiments/memcached/memcached.c:2720-2735 | A store that is accepted leaves exactly the new entry for the key, and the references as they should be |
| ItemOps.PutNewMeaning | Experiments/memcached/memcached.c:2632-2744 | Fetch, replace and release together change the map at the key only |
| ItemOps.PullShrinks | Experiments/memcached/items.c:172-212 | Pulls that make room while the key is locked lose other entries at most, and leave the item that was found alone |
| ItemOps.PulledShrinks | Experiments/memcached/items.c:172-212 | The same for any number of pulls |
| ItemOps.JoinMeaning | Experiments/memcached/memcached.c:2684-2735 | An append or prepend with memory stores the joined value |
| ItemOps.NoRoomMeaning | Experiments/memcached/memcached.c:2705-2714 | One without memory leaves the entry as it was |
| ItemOps.RealData | Experiments/memcached/items.c:251-252 | Stored data, and that of every item found, has its line end, because no smaller item is ever made |
| ItemOps.StoresValid | Experiments/memcached/memcached.c:2632-2744 | The whole store keeps the books |
| ItemOps.StoresMeaning | Experiments/memcached/memcached.c:2632-2744 | do_store_item refines the sequential meaning of add, set, replace, append, prepend and cas: the right result code, the right entry for the key with a new id, no other entry changed except that making room for a joined value may lose some, and all references in order |
| ItemMeaning.UpdateMeaning | Experiments/memcached/items.c:510-538 | An item changes its list exactly if it is linked on COLD and active in a segmented LRU: it then heads WARM without the mark, and COLD loses it alone; its time becomes now also if it is linked and stale, and in compatibility mode it then heads its own list; nothing else changes |
| ItemMeaning.HitMeaning | Experiments/memcached/items.c:926-951 | The first hit leaves FETCHED, the second ACTIVE with an update of the time, or on COLD a reference for the bump if a buffer has room and nothing if not; an active item is left alone; in compatibility mode every hit marks and updates |
| ItemMeaning.UpdateAndHit | Experiments/memcached/items.c:510-538 | Both hold of every item of an index in order |
| ItemMeaning.RelistMeaning | Experiments/memcached/items.c:518-524 | Off one list, whose others keep their order, and at the head of the other |
| ItemMeaning.LinkHeads | Experiments/memcached/items.c:432-452 | A linked item heads its list, with the time and a new id; the other lists and items are as they were |
| ItemMeaning.UnlinkLeaves | Experiments/memcached/items.c:454-493 | An unlinked item leaves its list, whose others keep their order, and the table; it stays exactly if somebody holds it |
| ItemMeaning.RefuseBumps | Experiments/memcached/memcached.c:2640-2643 | An add of a live key updates the item found |
| ItemMeaning.LookupMeans | Experiments/memcached/items.c:115-126 | A client sees an entry exactly until the second of its expiry, unless a flush covers its time or its id |
| ItemMeaning.DoomedIsDead | Experiments/memcached/items.c:1032-1034 | What a pull reclaims no client could see any more; the two tests differ in the second of expiry alone |
| ItemMeaning.StoreAnswers | Experiments/memcached/memcached.c:2632-2744 | STORED, EXISTS, NOT_FOUND and NOT_STORED each exactly when command, live entry and ids say so; a stored entry has the data, flags and expiry of the item, or those of the old entry with the two values joined, the time and a new id; else the key has its old entry |
| CasRuns.RunBounded | Experiments/memcached/items.c:107-113 | In every state of every run of stores, fetches, updates, pulls and item operations, no item in the table has an id above the last one drawn |
| CasRuns.StaysNewer | Experiments/memcached/items.c:444-446 | A key whose entry is newer than some moment never again has an entry as old, over any such run |
| CasRuns.OneWinner | Experiments/memcached/memcached.c:2656-2666 | In a run of any stores, fetches, updates, pulls and item operations, two cas stores of one key that carry the same token are never both told STORED |
| CasRuns.CasStoreDraws | Experiments/memcached/memcached.c:2647-2678 | A cas store that returns STORED carried the id of the live entry, and the new id is larger than all before |
| CasRuns.WithoutIdsAllWin | Experiments/memcached/memcached.h:93-100 | With the ids switched off a cas store is accepted exactly if the key is live, whatever token the client sent, so the guarantee needs them |
| CasRuns.BothAreStored | Experiments/memcached/memcached.c:2656-2666 | A concrete run without ids in which two clients send cas for one key with the same token and both are told STORED |
| CasRuns.StoresGrow | Experiments/memcached/memcached.c:2632-2744 | A store of any command lowers no id, and an entry it changes is newer than all before |
| CasRuns.HitGrows | Experiments/memcached/items.c:926-951 | The hit marks and bumps of a fetch lower no id |
| CasRuns.StepGrows | Experiments/memcached/items.c:341-547 | No item operation lowers an id or the counter |
| CasRuns.DoesGrows | Experiments/memcached/items.c:107-113 | No step of a run does |
| CasRuns.PullGrows | Experiments/memcached/items.c:978-1141 | A pull never lowers an id or the counter |
| CasRuns.PulledGrows | Experiments/memcached/items.c:172-212 | Nor do any number of pulls that make room |
| CasRuns.SwapGrows | Experiments/memcached/items.c:540-547 | A replacement raises the id |
| ItemStore.Copy | Experiments/memcached/memcached.c:2608-2620 | memcpy into an item: the bytes at the place, and no other |
| ItemStore.CopyData | Experiments/memcached/memcached.c:2600-2624 | The second copy overwrites the line end of the first: the joined data |
| ItemAlloc.SegmentedAnswer | Experiments/memcached/items.c:172-212 | In a segmented LRU there is a chunk if and only if one of the ten requests meets one |
| ItemAlloc.PlainAnswer | Experiments/memcached/items.c:172-212 | Without segments, if and only if one does and every evicting pull before it returned more than 0 |
| ItemAlloc.FailedRoundEvicts | Experiments/memcached/items.c:190-203 | A round whose request fails makes the evicting pull, and with eviction on that evicts exactly the first item from the tail of COLD that it does not pass over |
| ItemAlloc.AskedPulled | Experiments/memcached/items.c:172-212 | All pulls of the rounds are pulls under the lock of the key |
| ItemAlloc.JoinStores | Experiments/memcached/memcached.c:2695-2731 | A joined value with memory is stored, in the state in which the rounds ended, and one without is not |
| ItemAlloc.SegmentedRoom | Experiments/memcached/memcached.c:2695-2714 | An append or prepend in a segmented LRU finds memory if and only if a class fits and one of ten requests meets a chunk |
| ItemStore.Store.constructor | Experiments/memcached/items.c:45-49 | A store without items keeps the books |
| ItemStore.Store.LinkQ | Experiments/memcached/items.c:372-388 | The item is the new head of its list, and the totals follow |
| ItemStore.Store.UnlinkQ | Experiments/memcached/items.c:403-424 | The item leaves its list, and the totals follow |
| ItemStore.Store.Incr | Experiments/memcached/items.c:864-865 | One more reference |
| ItemStore.Store.Decr | Experiments/memcached/items.c:490-492 | One less; the last one frees the item |
| ItemStore.Store.Remove | Experiments/memcached/items.c:485-493 | do_item_remove is a release |
| ItemStore.Store.Link | Experiments/memcached/items.c:432-452 | do_item_link is the Link of the model |
| ItemStore.Store.Unlink | Experiments/memcached/items.c:454-467 | do_item_unlink is the Unlink of the model for a linked item, and nothing otherwise |
| ItemStore.Store.LoseItem | Experiments/memcached/items.c:1039-1042 | Reference, unlink, release: the item is lost from the index |
| ItemStore.Store.Relist | Experiments/memcached/items.c:518-524 | Off one list and in front of another |
| ItemStore.Store.Update | Experiments/memcached/items.c:510-538 | do_item_update with its branches is the Update of the model, which ItemMeaning.UpdateMeaning pins, and keeps the books |
| ItemStore.Store.Fetch | Experiments/memcached/items.c:862-925 | The lookup: retained if live, else unlinked |
| ItemStore.Store.GetItem | Experiments/memcached/items.c:862-963 | do_item_get with its hit marks |
| ItemStore.Store.Touch | Experiments/memcached/items.c:926-951 | The hit marks of a fetch, as ItemMeaning.HitMeaning states them |
| ItemStore.Store.DecideDeed | Experiments/memcached/items.c:997-1126 | The branches of lru_pull_tail decide as the model does |
| ItemStore.Store.TreatItem | Experiments/memcached/items.c:1032-1123 | The branches for an item whose lock was got are those of the model, whose effect PullOutcome.TurnStops states |
| ItemStore.Store.PerformDeed | Experiments/memcached/items.c:1032-1136 | Doing what was decided is the Perform of the model |
| ItemStore.Store.PullTurn | Experiments/memcached/items.c:997-1126 | One turn of the loop is the Turn of the model |
| ItemStore.Store.Pull | Experiments/memcached/items.c:978-1141 | The loop is the Run of the model, whose meaning PullTail.PullTailMeaning states |
| ItemStore.Store.PullFor | Experiments/memcached/items.c:1010-1013 | One pull by a thread that holds the lock of a key, with its arguments and its number |
| ItemStore.Store.AllocPull | Experiments/memcached/items.c:172-212 | Ten rounds at most, as ItemAlloc.Asked tells: which pulls each makes, that a failed request is followed by an evicting pull and another round unless there is no hope, and the answer of the last request |
| ItemStore.Store.EvictRound | Experiments/memcached/items.c:190-203 | An evicting pull of COLD, and where it returns 0 in a segmented LRU one of HOT |
| ItemStore.Store.AllocJoined | Experiments/memcached/memcached.c:2695-2703 | No chunk if the value is too large for any class, else what the rounds give |
| ItemStore.Store.FillChunk | Experiments/memcached/memcached.c:2704-2717 | The new chunk is an unlinked item with the key, flags and expiry of the one found and the joined data, meant for TEMP exactly if it expires within the temporary time to live, else for HOT exactly if there are segments |
| ItemStore.Store.PutItem | Experiments/memcached/memcached.c:2720-2725 | item_replace, or do_item_link where nothing was found |
| ItemStore.Store.SwapIn | Experiments/memcached/memcached.c:2720-2735 | The item goes in and the references are given back |
| ItemStore.Store.GiveUp | Experiments/memcached/memcached.c:2732-2735 | The end of a store that stores nothing |
| ItemStore.Store.StoreJoined | Experiments/memcached/memcached.c:2684-2735 | An append or prepend to a found item: the rounds for memory, then the joined item is stored in its place, or the found one is given back unchanged |
| ItemStore.Store.StoreItem | Experiments/memcached/memcached.c:2632-2744 | do_store_item is a store of the model, with its result; what that means for answers, entries and ids is stated by ItemMeaning.StoreAnswers, ItemOps.StoresMeaning and CasRuns.StoresGrow. A value that has to be joined finds memory exactly as the rounds of ItemAlloc.Asked say, in the state they end in |
| Slabs.PopValid | Experiments/memcached/slabs.c:278-291 | Handing out the head of a freelist keeps every chunk in one place |
| Slabs.PushValid | Experiments/memcached/slabs.c:355-381 | Freeing a handed-out chunk of the class keeps every chunk in one place |
| Slabs.JoinLaid | Experiments/memcached/slabs.c:202-209 | A new page is cut into free chunks that nobody else has |
| Slabs.GrowValid | Experiments/memcached/slabs.c:230-251 | Fresh memory is charged to the limit, or to the first page of the class |
| Slabs.FromPoolValid | Experiments/memcached/slabs.c:212-220 | A page from the pool costs no memory |
| Slabs.CutFreeValid | Experiments/memcached/slabs.c:709-718 | A chunk cut from the middle of a freelist is cleared and counted off |
| Slabs.RetireValid | Experiments/memcached/slabs.c:881-882 | A handed-out chunk is marked as cleared |
| Slabs.MoveValid | Experiments/memcached/slabs.c:991-1001 | An empty page changes its class whole |
| Slabs.ToPoolValid | Experiments/memcached/slabs.c:991-1005 | An empty page goes to the pool whole |
| Slabs.FreeOneValid | Experiments/memcached/slabs.c:521-525 | A page given back to the system is uncounted |
| Slabs.KindsOfChunks | Experiments/memcached/slabs.c:255-381 | The chunks of a class’s pages are free, handed out or cleared, and only one of these |
| Slabs.ChunksAddUp | Experiments/memcached/slabs.c:255-381 | Free, handed-out and cleared chunks of a class add up to slabs times perslab |
| Slabs.LimitKept | Experiments/memcached/slabs.c:222-252 | mem_malloced is at most the limit and one page for each class that owns one, as long as no malloc has failed |
| Slabs.NewSlabValid | Experiments/memcached/slabs.c:222-252 | Whether a new page is made or not, every chunk and page is in one place; when there is one SlabAnswers.NewSlabMeaning states |
| Slabs.NewPageKeepsLimit | Experiments/memcached/slabs.c:482-510 | A call keeps within that limit if and only if it does not count memory that malloc refused and that passes it |
| Slabs.AllocMeaning | Experiments/memcached/slabs.c:255-301 | The chunk handed out is of the class and was nobody’s; when there is none SlabAnswers.AllocAnswers states |
| Slabs.SkimMeaning | Experiments/memcached/slabs.c:675-705 | The mover gets a chunk outside the page, and only chunks of the page are cleared on the way |
| Slabs.Release | Experiments/memcached/slabs.c:513-526 | Only the pool shrinks |
| Slabs.ReleaseValid | Experiments/memcached/slabs.c:513-526 | Pool pages are given back until the limit is kept or the pool is empty |
| Slabs.FinishValid | Experiments/memcached/slabs.c:991-1005 | The page leaves for its new class or the pool with all its chunks, and the source class keeps a page |
| SlabAnswers.NewSlabMeaning | Experiments/memcached/slabs.c:222-252 | There is a new page if and only if the limit is not passed by a class with a page and an empty pool, the list can grow, and the pool or malloc has one; the class gains exactly that page and its chunks in order; the pool’s last page is free of charge, fresh memory is counted, and so is a refusal |
| SlabAnswers.AllocAnswers | Experiments/memcached/slabs.c:255-301 | There is no chunk if and only if the class is none, or its freelist is empty and no page may be made or can be had; else it is the first of the freelist, or of the page made for an empty one |
| SlabAnswers.SkimAnswers | Experiments/memcached/slabs.c:675-705 | The mover gets the first free chunk outside the page, those before it are cleared, and there is none exactly if the freelist or the looks are used up |
| SlabAnswers.ReleaseAnswers | Experiments/memcached/slabs.c:513-526 | Pages go back from the end of the pool, no fewer and no more than the limit asks for |
| SlabAnswers.FinishMeaning | Experiments/memcached/slabs.c:991-1005 | The page leaves the head of its class, and the other class gains it with all its chunks, or the pool at its end |
| SlabRuns.StepKeepsValid | Experiments/memcached/slabs.c:202-1005 | Every operation under the slabs lock keeps every chunk and page in one place, and the bound on memory |
| SlabRuns.RunKeepsValid | Experiments/memcached/slabs.c:202-1005 | The same in every reachable state |
| SlabRuns.EveryRunKeepsOrder | Experiments/memcached/slabs.c:202-1005 | In every reachable state: each freelist holds exactly sl_curr distinct chunks of its class’s pages, free, handed-out and cleared chunks add up, every page is once in one list at most, and mem_malloced is the bytes of the pages and of failed mallocs, at most the limit and one page for each owning class besides the latter |
| SlabRuns.PagesStay | Experiments/memcached/slabs.c:641-642 | A class that owns a page owns one for ever: no move takes the last one |
| SlabRuns.RefusedRunPassesLimit | Experiments/memcached/slabs.c:227-239 | Requests for a class without a page pass the test for the limit however many have failed: from any start-up state, a run of refused requests takes mem_malloced over any limit while no class owns a page |
| SlabRuns.FailedMallocPassesLimit | Experiments/memcached/slabs.c:507-509 | With pages of 1 MB and the usual limit of 64 MB, the 65th refused request takes the count over the limit |
| SlabPages.StepKeepsPaged | Experiments/memcached/slabs.c:675-957 | The chunks of the class are those of its pages, at every step of workers and mover |
| SlabPages.WhereNamed | Experiments/memcached/slabs.c:743-781 | The flags of a chunk’s header say where the allocator has it: on the freelist, handed out or cleared |
| SlabPages.ViewValid | Experiments/memcached/slabs.c:675-957 | Every state of the mover is a state of the allocator with every chunk and page in one place |
| SlabPages.DonePageMayMove | Experiments/memcached/slabs.c:941-1005 | In every interleaving, at done the page is empty for the allocator, which may give it away and is in order afterwards |
| SlabAllocator.Allocator.Free | Experiments/memcached/slabs.c:355-381 | do_slabs_free puts the chunk at the head of the freelist |
| SlabAllocator.Allocator.SplitPage | Experiments/memcached/slabs.c:202-209 | The chunks of the page are pushed one after the other |
| SlabAllocator.Allocator.PoolPage | Experiments/memcached/slabs.c:212-220 | The last page of the pool, if there is one |
| SlabAllocator.Allocator.AddPage | Experiments/memcached/slabs.c:245-251 | The page is cut up and listed |
| SlabAllocator.Allocator.MakePage | Experiments/memcached/slabs.c:222-252 | do_slabs_newslab is the NewSlab of the model, and refuses exactly as SlabAnswers.Refuses says |
| SlabAllocator.Allocator.TakeChunk | Experiments/memcached/slabs.c:255-301 | do_slabs_alloc is the Alloc of the model, and answers nothing exactly as SlabAnswers.NoChunk says |
| SlabAllocator.Allocator.PopChunk | Experiments/memcached/slabs.c:278-288 | The head of the freelist is handed out |
| SlabAllocator.Allocator.Start | Experiments/memcached/slabs.c:622-672 | A move starts exactly with two different known classes, room in the list and a source of at least two pages; it takes the first page |
| SlabAllocator.Allocator.CutOut | Experiments/memcached/slabs.c:709-718 | A free chunk of the page is cleared |
| SlabAllocator.Allocator.TakeOutside | Experiments/memcached/slabs.c:675-705 | slab_rebalance_alloc is the Skim of the model |
| SlabAllocator.Allocator.ReleasePool | Experiments/memcached/slabs.c:513-526 | memory_release is the Release of the model |
| SlabAllocator.Allocator.FinishMove | Experiments/memcached/slabs.c:959-1005 | slab_rebalance_finish is the Finish of the model |
| SlabFreelist.Freelist.constructor | Experiments/memcached/slabs.c:98-165 | An empty freelist |
| SlabFreelist.Freelist.Push | Experiments/memcached/slabs.c:367-375 | The chunk is the new head of a well-formed doubly linked list of exactly sl_curr chunks |
| SlabFreelist.Freelist.Pop | Experiments/memcached/slabs.c:278-288 | The head leaves, loses its mark and has its first reference; the rest is well formed |
| SlabFreelist.Freelist.Cut | Experiments/memcached/slabs.c:709-718 | A chunk leaves from anywhere in the list and is marked as cleared; the rest is well formed |
| SlabFreelist.Freelist.CutPointers | Experiments/memcached/slabs.c:712-717 | The pointer work of cutting a chunk out |
| SlabMover.WorkerKeepsInv | Experiments/memcached/slabs.c:255-381 | No step of a worker touches a cleared chunk, one the mover has locked or its spare; the invariant holds |
| SlabMover.GrowKeepsInv | Experiments/memcached/slabs.c:222-252 | A new page for the class keeps the invariant |
| SlabMover.LookKeepsInv | Experiments/memcached/slabs.c:757-818 | Reading the flags of a chunk, and cutting out a free one, keeps the invariant |
| SlabMover.TryFailsKeepsInv | Experiments/memcached/slabs.c:786-813 | A chunk that is busy or locked is counted |
| SlabMover.TryRescuesKeepsInv | Experiments/memcached/slabs.c:825-858 | A seized chunk, and the spare it may get, keep the invariant |
| SlabMover.RescuingKeepsInv | Experiments/memcached/slabs.c:860-918 | Relinking the copy, or unlinking and freeing the item, in small steps, keeps the invariant; what becomes of the entry SlabRescue.RescueKeepsEntry states |
| SlabMover.WrapKeepsInv | Experiments/memcached/slabs.c:941-952 | Starting over exactly when busy chunks were counted keeps the invariant |
| SlabMover.StartMoveKeepsInv | Experiments/memcached/slabs.c:649-656 | A started move has no cleared chunk behind it |
| SlabMover.FinishKeepsInv | Experiments/memcached/slabs.c:991-1005 | The page leaves its class with its chunks |
| SlabMover.DoneMeansEmpty | Experiments/memcached/slabs.c:949-951 | When done is set every chunk of the page is cleared, on no freelist, not linked, and referenced by nobody |
| SlabMover.StepKeepsInv | Experiments/memcached/slabs.c:675-957 | Every step of mover or worker keeps: the uncleared chunks before slab_pos are at most busy_items |
| SlabMover.StepKeepsCleared | Experiments/memcached/slabs.c:675-957 | A cleared chunk of the page stays cleared, and the page stays the first of its class |
| SlabMover.RunKeepsInv | Experiments/memcached/slabs.c:675-957 | The invariant holds in every reachable state |
| SlabMover.EveryMoveEmptiesThePage | Experiments/memcached/slabs.c:941-957 | In every interleaving, at done the page is empty and the class has another page |
| SlabRescue.StepAccounts | Experiments/memcached/slabs.c:741-957 | No step of a worker or the mover loses a chunk |
| SlabRescue.NoChunkIsLost | Experiments/memcached/slabs.c:741-957 | In every reachable state a chunk that is not on a freelist or cleared is linked, held by a thread, about to be freed by one, locked by the mover or its spare |
| SlabRescue.RunCarries | Experiments/memcached/slabs.c:825-918 | While the mover holds the lock of an item, in any interleaving, the item has its old entry until it is unlinked and the new one once it is linked, and all other entries are what the workers make of them |
| SlabRescue.RescueKeepsEntry | Experiments/memcached/slabs.c:860-918 | When the lock is given back, exactly the old entry is gone and, if there was a spare chunk, exactly that one is an entry in its place, with the hit mark, one reference and nobody holding it, and the old chunk is cleared; without a spare the old chunk is at the head of the freelist |
| SlabRescue.SparedExactly | Experiments/memcached/slabs.c:825-858 | There is a spare chunk if and only if the item is to be saved and any chunk outside the page is free |
| SlabRescue.LookAnswers | Experiments/memcached/slabs.c:757-818 | Cleared chunks are passed, free ones cleared, linked ones checked, all others counted as busy |
| SlabRescue.UndisturbedRescue | Experiments/memcached/slabs.c:786-939 | Alone, the mover takes a linked item that nobody holds through to its end: the item is on the first free chunk outside the page, or unlinked with its chunk free and counted as busy |
| SlabRescue.UndisturbedScan | Experiments/memcached/slabs.c:941-957 | Alone, over chunks that nobody uses, it goes straight to done, with every chunk of the page cleared |
| Iov.PayloadLonger | Experiments/memcached/memcached.c:887-913 | One more buffer in the last message adds exactly its bytes to the response |
| Iov.PayloadFresh | Experiments/memcached/memcached.c:288-299 | A new message adds nothing but its header slot |
| Iov.PushSlices | Experiments/memcached/memcached.c:908-913 | Storing behind the last slice lengthens that one and leaves the others |
| Iov.TakeSlices | Experiments/memcached/memcached.c:4577-4588 | Taking from one message leaves the slices of the others |
| Iov.TakeBytes | Experiments/memcached/memcached.c:4577-4588 | What is pending loses exactly the bytes written |
| Iov.TcpPayload | Experiments/memcached/memcached.c:898-914 | Without header slots the messages carry the buffers and nothing else |
| Iov.Conn.constructor | Experiments/memcached/memcached.c:262-302 | A connection without messages |
| Iov.Conn.EnsureIovSpace | Experiments/memcached/memcached.c:818-842 | Growing moves the array and points every message at its slice of the new one |
| Iov.Conn.Repoint | Experiments/memcached/memcached.c:834-838 | Summing up the lengths finds every message’s place |
| Iov.Conn.PushVec | Experiments/memcached/memcached.c:887-893 | One more iovec ends the last message |
| Iov.Conn.FreshMsg | Experiments/memcached/memcached.c:268-294 | A message with an empty slice behind the last one |
| Iov.Conn.AddMsghdr | Experiments/memcached/memcached.c:262-302 | The new message is in order, with its header slot for UDP |
| Iov.Conn.StartMsg | Experiments/memcached/memcached.c:870-874 | A response that is being built stays in order when a message is started |
| Iov.Conn.AddPart | Experiments/memcached/memcached.c:876-893 | A part that fits is added to the last message |
| Iov.Conn.AddIov | Experiments/memcached/memcached.c:855-917 | The buffer is added to the response; every UDP message stays within 1400 bytes and every message within IOV_MAX iovecs |
| Iov.Conn.AddIovUdp | Experiments/memcached/memcached.c:861-897 | The loop that splits a buffer over datagrams |
| Iov.Conn.AddSome | Experiments/memcached/memcached.c:863-896 | A part that ends the buffer or fills the datagram, in a new one only if the last is full |
| Iov.Conn.BuiltIsLeftover | Experiments/memcached/memcached.c:855-917 | A response that has been built is ready to be sent: what is pending are the buffers in order |
| Iov.Conn.Advance | Experiments/memcached/memcached.c:4560-4564 | A message that is written out is left behind |
| Iov.Conn.Take | Experiments/memcached/memcached.c:4575-4588 | The bytes written leave the front of the message, and what is pending is the rest |
| Iov.Conn.Skip | Experiments/memcached/memcached.c:4577-4581 | The finished iovecs are passed |
| Iov.Conn.Transmit | Experiments/memcached/memcached.c:4557-4613 | What was pending is what is sent followed by what is pending now; complete exactly when no message is left, and then nothing is pending |
| Iov.Conn.Offered | Experiments/memcached/memcached.c:4565-4569 | The bytes of the message that sendmsg is given |
| Iov.Conn.Begin | Experiments/memcached/memcached.c:262-302 | The first message of a response |
| Iov.Conn.AddAll | Experiments/memcached/memcached.c:855-917 | Any buffers added in order: the messages carry them in order, and every message but the last is full |
| Iov.Conn.SendAll | Experiments/memcached/memcached.c:4557-4613 | Any partial writes: bytes sent and bytes pending are always the whole |
| Iov.Conn.Respond | Experiments/memcached/memcached.c:855-917 | For any buffers and any partial writes: the messages carry the buffers in order, each fits into a datagram, no message is started before the last is full, and bytes sent followed by bytes pending are the messages in order |
| UtHash.PushChain | RSApi/uthash.h:758-764 | The element heads its chain, counted and linked back |
| UtHash.CutChain | RSApi/uthash.h:772-782 | The element leaves its chain, and the count and back links follow |
| UtHash.AppendList | RSApi/uthash.h:226-232 | The element is the last in insertion order |
| UtHash.CutList | RSApi/uthash.h:371-386 | The element leaves the insertion order, and head and tail follow |
| UtHash.AddFiled | RSApi/uthash.h:306-327 | Chains and insertion order still hold the same elements, each once |
| UtHash.AddStandsFor | RSApi/uthash.h:306-327 | The table stands for the map with the element added, and keys stay unique exactly if they were and this one was not there |
| UtHash.DeleteFiled | RSApi/uthash.h:359-392 | Chains and insertion order still hold the same elements |
| UtHash.DeleteStandsFor | RSApi/uthash.h:359-392 | The table stands for the map without the element; with unique keys that is the map without the key |
| UtHash.CountsAddUp | RSApi/uthash.h:443-452 | The counts of all buckets add up to the number of elements |
| UtHash.IdealIsCeiling | RSApi/uthash.h:824-826 | ideal_chain_maxlen is the least length with which the buckets can hold the items: the exact ceiling |
| UtHash.SpreadStep | RSApi/uthash.h:831-845 | Moving one element to its new bucket keeps every element in one place |
| UtHash.SpreadEnds | RSApi/uthash.h:828-847 | When all have moved, every element is at home among twice the buckets |
| UtHash.ExcessPush | RSApi/uthash.h:835-836 | nonideal_items counts the elements beyond the ideal length |
| UtHashTable.MoveOne | RSApi/uthash.h:834-844 | One element goes to the front of its new chain, and count, multiplier and excess follow |
| UtHashTable.SpreadChain | RSApi/uthash.h:830-846 | One old chain is moved whole |
| UtHashTable.SpreadAll | RSApi/uthash.h:828-847 | All chains are moved: every element is at home, the chains have right counts and back links |
| UtHashTable.Table.constructor | RSApi/uthash.h:173-190 | A table without elements stands for the empty map |
| UtHashTable.Table.Find | RSApi/uthash.h:120-130 | An element with the key exactly if there is one; with unique keys the map’s |
| UtHashTable.Table.FindInBkt | RSApi/uthash.h:736-755 | The first element of the chain with that hash value and key |
| UtHashTable.Table.FindMeaning | RSApi/uthash.h:736-755 | In a table in order, a walk of the chain answers so |
| UtHashTable.Table.Expand | RSApi/uthash.h:813-859 | HASH_FSCK holds, map and insertion order are unchanged, there are twice the buckets, and ideal length, excess and multipliers are exact; two in a row that leave most elements too deep stop further ones |
| UtHashTable.Table.Redistribute | RSApi/uthash.h:828-851 | The new buckets take the place of the old ones |
| UtHashTable.Table.MakeTable | RSApi/uthash.h:173-190 | 32 empty buckets |
| UtHashTable.Table.Append | RSApi/uthash.h:312-320 | The first element makes the table, a later one is appended |
| UtHashTable.Table.Add | RSApi/uthash.h:306-327 | HASH_FSCK holds, the map has the element, the insertion order ends with it, and the buckets double exactly when its bucket is full and expansion is not stopped; a key that is there may be added again |
| UtHashTable.Table.Enter | RSApi/uthash.h:321-323 | The element enters its bucket |
| UtHashTable.Table.Delete | RSApi/uthash.h:359-392 | HASH_FSCK holds, the insertion order loses the element, and the map its entry unless the key has another element |
| UtHashTable.Table.DeleteOne | RSApi/uthash.h:369-389 | For an element that is not the only one |
| UtHashSort.TakeP | RSApi/uthash.h:899-917 | Taking the head of the first run when it is not larger keeps what is out before all that is left |
| UtHashSort.TakeQ | RSApi/uthash.h:918-924 | Taking the head of the second run otherwise does so too |
| UtHashSort.MergedMultiset | RSApi/uthash.h:892-936 | Merging two runs keeps the elements |
| UtHashSort.MergedAscending | RSApi/uthash.h:892-936 | Merging two sorted runs sorts them, equal elements in their old order |
| UtHashSort.MergedRun | RSApi/uthash.h:892-936 | The merged runs are a run where they stood |
| UtHashSort.Emit | RSApi/uthash.h:925-935 | The element is the tail of the merged part, linked both ways |
| UtHashSort.MergeTurn | RSApi/uthash.h:892-936 | One turn of the inner loop puts out the next element of the merge |
| UtHashSort.MergeRuns | RSApi/uthash.h:891-936 | The inner loop puts out the merge of the two runs and leaves the rest of the old list alone |
| UtHashSort.FindQ | RSApi/uthash.h:882-890 | The second run starts a run’s length behind the first |
| UtHashSort.PassStep | RSApi/uthash.h:880-938 | Each merge makes one run of twice the length |
| UtHashSort.MergePass | RSApi/uthash.h:876-941 | A pass leaves a well-linked list of the same elements in runs of twice the length, and says whether more than one is left |
| UtHashSort.SortList | RSApi/uthash.h:866-948 | The sort ends; the list is well linked at head, tail and every prev, a permutation of the old one, ascending and stable |
| UtHashSort.SortedIsUnique | RSApi/uthash.h:862-864 | There is but one stable ascending order of the elements |
| UtHashSort.Sort | RSApi/uthash.h:866-951 | HASH_SRT keeps HASH_FSCK and the map, and sorts the insertion order |
| Jenkins.XorBack | Experiments/memcached/jenkins_hash.c:79-87 | Xor with the same word twice is nothing |
| Jenkins.LineBack | Experiments/memcached/jenkins_hash.c:79-87 | A line of mix can be read backwards |
| Jenkins.MixIsReversible | Experiments/memcached/jenkins_hash.c:35-39 | mix is a bijection on its three words, with the given inverse |
| Jenkins.FinalIsReversible | Experiments/memcached/jenkins_hash.c:113-122 | final is a bijection on its three words, with the given inverse |
| Jenkins.BlockStep | Experiments/memcached/jenkins_hash.c:256-273 | A turn of the loop absorbs one block of the key |
| Jenkins.WordAtEnd | Experiments/memcached/jenkins_hash.c:166-180 | The masks cut off exactly the bytes behind the key |
| Jenkins.HashWords | Experiments/memcached/jenkins_hash.c:137-180 | The 32-bit path gives the hash value of the bytes of the key, whatever is behind them in the last word |
| Jenkins.LastWords | Experiments/memcached/jenkins_hash.c:166-180 | The switch over the last block, with its masks |
| Jenkins.HashHalves | Experiments/memcached/jenkins_hash.c:205-249 | The 16-bit path gives the same |
| Jenkins.LastHalves | Experiments/memcached/jenkins_hash.c:221-249 | The switch with its fall-through cases |
| Jenkins.HashBytes | Experiments/memcached/jenkins_hash.c:252-292 | The byte path gives the same |
| Jenkins.AddUp | Experiments/memcached/jenkins_hash.c:258-269 | Four bytes added one by one are the word added |
| Jenkins.AddDown | Experiments/memcached/jenkins_hash.c:278-289 | So are those of an incomplete word |
| Jenkins.LastBytes | Experiments/memcached/jenkins_hash.c:276-296 | The fall-through switch over the last block |
| Jenkins.JenkinsHash | Experiments/memcached/jenkins_hash.c:126-297 | The hash value depends on the bytes and the length of the key alone, not on its address or what follows it |
| Jenkins.StatesStayApart | Experiments/memcached/jenkins_hash.c:35-39 | Different states stay different over any further blocks |
| Jenkins.OneBlockChanged | Experiments/memcached/jenkins_hash.c:35-39 | Keys of one length that differ in a single block never meet before final |
| Jenkins.MixingIsReversible | Experiments/memcached/jenkins_hash.c:79-87 | mix never sends two states to one |
| Jenkins.HashIsFinal | Experiments/memcached/jenkins_hash.c:295-296 | The hash value is final of the state after the last block |
| Jenkins.HashIsThird | Experiments/memcached/jenkins_hash.c:295-296 | The hash value of a key is the third word of a state whose three words tell the state that final got |

## Left out

- Sockets, libevent, `drive_machine`, protocol parsing, SASL, statistics output, DTrace probes, option parsing, the RSA programs and the kernel device: plumbing around the parts modelled here.
- `cache.c`, `hash.c`, `stats.c`, `util.c`, `itoa_ljust.c`, `murmur3_hash.c` and the connection queues of `thread.c`: smaller claims of the same kinds.
- Chunked items, in the store, the allocator and the mover, and with them the failure of a chunk copy in `do_store_item` (memcached.c:2708-2713).
- `do_add_delta`, whose early return at memcached.c:3653-3655 keeps its reference.
- Tail repair (items.c:1021-1029), which overwrites reference counts: `tail_repair_time` is 0.
- The metadump crawler, which reaches the end of a class without the LRU lock (crawler.c:341-350); the limits, sleeps and locks of the crawler thread around one turn, and the evaluation of an item.
- Liveness among other threads: that a pause, a page move, a migration or a crawl ends whatever they do. What is proved is what holds when it does, and that the mover, the migration and the log reader get on when nobody disturbs them.
- Pointer arithmetic: items, chunks and pages are objects or names, masks of hash values are low bits (`Common.Low`), offsets stand for pointers into buffers.
- Widths of counters and ids: the 64-bit `cas` id, 32-bit sizes and counts do not wrap. Times are 32 bits wide where the code subtracts them, and words are in `Jenkins`.
- Failure of `malloc` for chains, iovecs, messages and uthash tables, except where a null result is an ordinary branch.
- The `requested` byte counter of a slab class, `slab_list` as reallocated memory (it is a sequence), the slot that `grow_slab_list` reserves, preallocated memory, and the automove call inside `lru_pull_tail`.
- Class sizes: any positive number of chunks in a page that fits is taken as given.
- The bytes of an item: they are one sequence with its line end; header, suffix and client flags as text are not laid out.
- Logging and per-thread statistics inside the operations, and the `cas` that the connection remembers.
- The maintainer's juggling of lists and the choice of what to crawl.
- The big-endian `jenkins_hash` and its variant for VALGRIND.
- `HASH_SELECT`, `HASH_REPLACE`, in-order adding, the Bloom filter, `HASH_CLEAR` and the hash functions of uthash.
- A bip buffer of 2^31 bytes or more, where lengths would turn negative.
- BipUsers.EveryRunDeliversWholeEntries: in its runs the reader goes on to the end of the span. When the last watcher leaves, the loop stops before (`BipUsers.ParseSpan`) and the poll then drops entries that nobody has read.
- BipUsers.ProduceQueues: a text entry that fails to format leaves its size unset (logger.c:655-657); an entry is well formed here.
- BipUsers.RunKeepsInv: the reference that `lru_bump_async` takes and the queuing of the entry are one step, as nobody can see it between them.
- BipUsers.Watcher.Flush: a failed or empty write closes and frees the watcher (logger.c:431-436). Inside the request loop the code then goes on to read and write the freed watcher (logger.c:246-257): the model does what the code does to its fields and calls the watcher `closed`, but says nothing of the memory. A hang-up found by `poll` is not modelled.
- Assoc.HashTable.Delete: the key must be there, as the code's own comment says; the assertion for a missing key is not modelled.
- AssocLocks.RunKeepsInv: memory order is sequentially consistent; a bulk move is one bucket after the other.
- LruQueue.Queue.LinkTailQ: the marker must not be on a list yet, so a second start before the first crawl has ended is not modelled.
- ItemIndex.LinkValid: linking needs the key to be absent, as `assoc_insert` asks; that it is follows from the item lock, which is not part of this module.
- PullTail.PullTailMeaning: the pull is one step for other threads; the item it moves is linked to its new list in the same step although the code does so under a second lock.
- ItemStore.Store.StoreItem: the store is one step for other threads, which the item lock of the key makes it for that key. Whether slabs_alloc has a chunk is given by the caller, round by round.
- ItemOps.StoresMeaning: for `add`, the item found must have been accessed no later than now, as its clock makes it.
- ItemStore.Store.FillChunk: a new item carries access time 0 until it is linked.
- CasRuns.OneWinner: each store, fetch, update and pull of a run is one step; `do_store_item` runs under the item lock of its key.
- SlabAllocator.Allocator.TakeChunk: `malloc` is given by the caller as an answer and a page that is in no list.
- SlabMover.RunKeepsInv: the lock is released after every chunk, so that the runs of a larger `slab_bulk_check` are among those covered. What a chunk holds besides its header is not modelled, and an item is copied and relinked in the small steps of the header only.
- Slabs.FinishValid: a page may move only if all pages have one length, which `slab_reassign` sees to.
- Iov.Conn.Transmit: errors of the system are one result; the header of a UDP message is eight bytes that `build_udp_headers`, which is not part of this model, fills in.
- UtHashTable.Table.Find: of several elements with one key it finds the first of the chain (`UtHashTable.Table.FindInBkt`), the newest until a doubling turns the chain round; the map does not say which.
- UtHashSort.SortList: with more than 2^31 elements the run length would wrap to 0.
- Jenkins.HashWords: memory must go on to the end of the last word, as it does at an aligned address.
