# A verified model of the tile cache

This project models the state-changing core of the tile cache service in Dafny and proves what that core is for. The
service stores map tiles in SQLite shard files, keeps recent tiles in a byte-bounded memory cache, keeps a catalog of
layers and databases up to date put by put, removes expired databases once a day and counts requests by the hour.
`dafny verify dfyconfig.toml` checks everything.

SQLite tables are maps, a transaction either happens whole or not at all, the directory tree is a set of component
paths, and everything that may fail (a locked database, an unreadable shard, a removal that stops half-way) is an
oracle or a free choice, so that each theorem holds whatever fails.

## How the modules fit together

| module | what it is about |
|---|---|
| `Tiles`, `Sums` | shared values, and sums over maps that do not depend on an order of the keys |
| `Lru`, `LruLaws` | the reference cache: a list from least to most recently used, what runs of it keep, and what they answer in terms of the operations alone |
| `TileMemoryCache`, `CacheRuns` | the real cache, a map beside a lazily cleaned min-heap; its class is proved against `Lru`, for single calls and for whole runs |
| `Writer`, `WriterAddresses` | the writer of one shard: FIFO queue, batches, transactions, bounded retry, one reply per command; and the puts the service makes, by tile |
| `Shards`, `ShardLaws`, `ShardProgress` | handles, queues, writers and closers as atomic steps; an invariant of every interleaving; what can happen next, so that nobody is stuck |
| `Paths`, `PathLaws` | tile addresses, directories and who owns which shard file; how an address reads back |
| `Layers`, `Scan` | what a zoom range and an extent mean, the incremental step, the scan of shard files, and the walk through the directories |
| `Catalog`, `CatalogLaws` | the catalog batch, removals and the rebuild; database rows stay the sums of their layers |
| `CatalogRows`, `CatalogBatches`, `CatalogWriter` | what a batch writes into each row; cutting batches does not matter; the loop that gathers queued puts and flushes them |
| `CatalogRuns`, `CatalogDoubleCount`, `CatalogShortIds` | the incremental catalog against the scan, over all runs, and runs in which it goes wrong |
| `CatalogRebuild` | the rebuild from the directories: when it succeeds, and which rows it leaves accurate |
| `Coherence`, `CoherenceRuns` | the memory cache against the stored rows, in serial and in interleaved runs, and interleavings in which an older value wins |
| `Cleanup`, `CleanupLaws` | the expiry loop, directories and rows, on every exit; exactly what survives it |
| `Stats` | hourly counters with write-behind |
| `Schedule` | the maintenance loop and the daily run |
| `Search`, `Percent` | LIKE escaping and percent decoding |

## Main results

* **The cache is an LRU.** For every sequence of reads, puts, invalidations and idle evictions the map-and-heap cache
  answers as the reference list and holds exactly its slots (`CacheRuns.Replay`). Eviction keeps the longest recent
  suffix that fits (`Lru.FitIsLongestSuffix`). Every live stamp is in the heap, so the empty-heap exit of the eviction
  loop is unreachable; the byte count is the exact sum. Over a whole run the heap holds at most 4 × entries + 1024 stamps
  plus the hits since the last admitted insert or rebuild, every stamp is accounted for, and all pops together are at
  most the hits and admitted inserts of the run. In terms of the operations alone (`LruLaws`): a put within both limits is
  what the next read answers, a refused one changes nothing, the list is in the order of last use, another tile survives
  a put *if and only if* the tiles used no earlier than it fit beside the new one, and an idle sweep takes exactly the
  tiles last used that long ago.
* **The writer is one-at-a-time upserts.** Whatever the batch cuts and failures, the tables are the in-order upserts of
  exactly the puts answered Ok; every dequeued command is answered once; a put fails only with its own batch, and that
  only for an invalid name or after its last attempt; the table name of every tile is valid, so without faults every put
  of the service is written, and each tile ends with the data of its last put (`WriterAddresses.WriteTiles`);
  `created` means that the tile was absent; the "incomplete batch" branch is unreachable.
* **Idle closing never cuts off a waiter**, and an answered shutdown means that every put queued ahead of it has been
  answered, in every interleaving. A put that holds a shard is turned away *if and only if* the queue is full or the
  writer has ended, and whoever waits can go on, or the writer it waits for can (`ShardProgress.WaiterNeverStuck`).
* **Incremental catalog against scan.** From an accurate row, at every moment of every run, also with failed flushes
  and discarded outcomes, count plus queued and lost creations equals the true count plus a lag that is never negative,
  unless the row was last recalculated from another layer's directory. Zoom range and extent agree with the scan
  whenever everything is written and nothing lost. The whole row then agrees *if and only if*, for an item id of more
  than four characters, the lag is zero, and for a shorter one the overwritten tiles did not grow or shrink on the whole.
  The lag of a layer is the number of its creations that were still queued when its last recalculation, which reads
  table by table (src/store.rs:447-468), read the table they are in. The service's own README promises that the
  dashboard becomes accurate after the next flush (README.md:62 of the repository). The code does not always keep that
  promise, and the model follows the code. A recalculation reads tiles that a later flush adds again
  (src/catalog.rs:557-574; `CatalogDoubleCount.RecalculationCountsTwice`). And the walk joins the levels of a directory,
  so it lists an item of four characters or fewer under the name of its zoom directory (src/store.rs:416-435, 1013-1020):
  the overwrite of a tile of item `abc` is never recalculated (`CatalogShortIds.OverwriteOfShortItemStays`), and the
  zoom directory `J` of item `ab` sets the row of item `abJ` to nothing (`CatalogShortIds.ZoomDirectoryEmptiesRow`).
  Both are runs without a failure. With ids longer than four characters no row is ever recalculated from another
  directory (`CatalogRuns.LongIdsNeverSpoiled`).
* **Rebuild.** A rebuild without faults succeeds *if and only if* no two directories join to the same id, which always
  holds when database ids are longer than four characters. After it a row is accurate *if and only if* the layer has no
  tiles, or its database is listed and its item id is longer than four characters. The row of a shorter item is dropped
  with its name and its protection while its tiles stay, and an empty, unprotected layer named after its zoom directory
  takes its place (`CatalogRebuild.RebuildForgetsProtection`; src/catalog.rs:176-208). Every row is read off the disk:
  path, size and last use are those of the access marker, and what the catalog did not have before comes out without a
  name and without protection (`CatalogRebuild.DatabaseRowsFromMarks`, `LayerRowsFromWalk`).
* **Conservation.** Through batches, removals, rebuilds and the whole writer loop with arbitrary failures, every layer
  has a database row whose `tile_count` and `layer_count` are the sum and the number of its layers, so `MAX(0, …)` on
  these two columns never changes a value.
* **Cleanup.** On every exit, also the early ones, only unprotected expired databases and unprotected layers of other
  expired ones are gone about; all other rows, names and flags are kept, and so are the rows of directories that are not
  there. On success a path survives *if and only if* no directory that was found covers it and it is not a first level
  that lost all below it with a database. Which directories are found is fixed by the disk at the start, the order and
  the directories that cannot be looked at, so the returned number is exact; with database ids longer than four
  characters it is the number of expired, unprotected databases whose directory can be looked at
  (`CleanupLaws.CountExactly`). Ids of four characters and fewer make directories meet: dropping the expired database
  `abcd` deletes the files of the protected database `abcdefgh` (`CleanupLaws.ShortIdTakesProtected`;
  src/store.rs:554-565, 1004-1011). `CleanupLaws.TileSurvivesExactly` and `DatabaseSurvivesExactly` say, for all ids,
  exactly when this happens.
* **Statistics** lose nothing for retained hours, and count nothing twice *if and only if* no batch restored after its
  own commit (a prune that fails, src/stats.rs:287-295, 314-319) held anything for that hour.
  `Stats.PruneFailureCountsTwice` is a run in which one does.
* **Cache and store agree** after a serial step *if and only if* the step is none of three: a committed put that is too
  large for the cache over a cached tile (src/store.rs:126-128), a put to a row that a cached tile of a crossed layer
  shares, or a drop that reaches a cached tile of other ids. The last two need ids of four characters or fewer.
  `Coherence.OversizePutReadsOld` and `Coherence.CrossedLayersMix` are runs in which reads go wrong. Interleaved
  operations can lose agreement with any ids: a read that has fetched its value from the shard caches it after a put has
  replaced it, or a drop has removed it (`CoherenceRuns.ReadOvertakenByPut`, `ReadOvertakenByDrop`;
  src/store.rs:308-331, 344-368).

## Model

| member | source | states |
|---|---|---|
| Lru.RunIsBoundedAndCurrent | src/store.rs:67-221 | over any run the cache fits its capacity, holds no key twice, and answers a key with the data of its last admitted put that no invalidation followed, or not at all |
| Lru.FitIsLongestSuffix | src/store.rs:145-157 | eviction keeps the longest most-recently-used suffix within capacity, nothing shorter |
| Lru.FreshTileSurvives | src/store.rs:125-157 | a tile just put is resident exactly when it fits the capacity; only older tiles leave for it |
| Lru.ApplyKeeps | src/store.rs:103-221 | each operation keeps keys distinct and bytes within capacity |
| CacheRuns.Replay | src/store.rs:67-221 | after any sequence of operations every read answered as the reference list would, and a read just after a put within both limits with exactly its data; entries and bytes are the list's; the heap holds at most 4 × entries + 1024 stamps plus the hits since the last admitted insert or rebuild; pushes are exactly the hits and admitted inserts, every stamp is in the heap, popped or discarded, and all pops of the run are at most those pushes |
| LruLaws.PutIsAnswered | src/store.rs:125-144 | after any run, a put that is not empty and within both limits is what the next read of that tile answers |
| LruLaws.RefusedPutChangesNothing | src/store.rs:126-128 | after any run, a put that is empty, over the limit for one tile, or into a cache without capacity changes nothing |
| LruLaws.OverlargePutClears | src/store.rs:145-157 | a put within the limit for one tile but over the capacity leaves nothing cached |
| LruLaws.RecencyIsLastUse | src/store.rs:108-122 | after any run the list is in the order of the last reads and accepted puts of its tiles |
| LruLaws.StaysExactly | src/store.rs:145-157 | another tile survives a put if and only if it, the tiles used after it and the new one fit the capacity together |
| LruLaws.IdleTakenExactly | src/store.rs:175-201 | an idle sweep takes a resident tile if and only if its last use is that long ago, and with no limit none |
| CacheRuns.Perform | src/store.rs:103-221 | one operation on the map-and-heap cache is that operation on the recency list, with the hits and pushes the operations say |
| TileMemoryCache.Cache.constructor | src/store.rs:91-101 | a new cache is empty and sound |
| TileMemoryCache.Cache.Get | src/store.rs:103-123 | returns what the list holds, renews its slot, pushes one stamp on a hit and counts exactly one hit or miss when enabled |
| TileMemoryCache.Cache.Insert | src/store.rs:125-165 | data that is not empty and not over the limit for one tile, in a cache with capacity, gives the reference insert: one push, exactly the pops that eviction makes and a compaction exactly when the heap is still overgrown, all counted; any other put changes nothing, not even an older entry of its key |
| TileMemoryCache.CompactsExactly | src/store.rs:158-164 | an insert compacts the heap exactly when more than 4 × entries + 1024 stamps are left in it |
| TileMemoryCache.Cache.Invalidate | src/store.rs:203-221 | exactly the selected keys leave and the heap holds one stamp per entry |
| TileMemoryCache.Cache.InvalidateItem | src/store.rs:167-169 | exactly the tiles of one item leave |
| TileMemoryCache.Cache.InvalidateDatabase | src/store.rs:171-173 | exactly the tiles of one database leave |
| TileMemoryCache.Cache.EvictIdle | src/store.rs:175-201 | exactly the tiles idle for long enough leave, the returned number is theirs, the heap is rebuilt exactly if some left |
| TileMemoryCache.EvictToFit | src/store.rs:145-157 | popping stamps and skipping stale ones computes the reference eviction; stamps leave in tick order and the last one popped is that of an evicted entry; the empty-heap exit is never taken |
| TileMemoryCache.Admit | src/store.rs:129-165 | insertion, eviction and compaction together are the reference insert, and every stamp pushed, popped, discarded and put in by the compaction is counted |
| TileMemoryCache.PopLeast | src/store.rs:146-148 | a stamp of least tick leaves the heap |
| TileMemoryCache.Rebuilt | src/store.rs:158-164 | a compacted heap has exactly one, current, stamp per entry |
| TileMemoryCache.RemoveAll | src/store.rs:211-215 | the freed bytes are exactly those of the removed slots |
| TileMemoryCache.RemoveAndRebuild | src/store.rs:203-221 | removal and rebuild drop exactly the given keys, restore one stamp per entry, and count what the rebuild discards and puts in |
| TileMemoryCache.RemoveIdle | src/store.rs:179-200 | the idle scan drops the reference's idle keys and rebuilds only if some left |
| TileMemoryCache.CoverCount | src/store.rs:158-164 | a heap that covers the entries holds at least one stamp for each, so a rebuild never adds stamps |
| TileMemoryCache.LeastCurrentStampIsOldest | src/store.rs:146-155 | the least stamp, if not stale, is the least recently used entry's |
| TileMemoryCache.RepresentationUnique | src/store.rs:78-88 | the entries determine the recency list |
| TileMemoryCache.LiveTicksDistinct | src/store.rs:108-111 | live entries have distinct ticks |
| TileMemoryCache.TouchStep | src/store.rs:109-112 | a hit moves a slot to the recent end and keeps all bytes |
| TileMemoryCache.AdmitStep | src/store.rs:130-144 | admitting a tile replaces its slot and moves the byte sum by the difference, without clamping |
| TileMemoryCache.HitStep | src/store.rs:108-122 | a hit pushes one stamp and keeps soundness and the heap bounds |
| TileMemoryCache.IdleEntries | src/store.rs:182-189 | entries found idle are the list's idle keys |
| Writer.WritePut | src/store.rs:808-838 | succeeds exactly with a valid table name and no fault; then it is an upsert, and `created` says that the row was absent |
| WriterAddresses.ValidNames | src/store.rs:1022-1031 | a name is valid exactly when it is not empty and every character is an ASCII letter, digit or underscore, by its code |
| WriterAddresses.TableNamesValid | src/store.rs:876 | the table name of every zoom and position is valid |
| WriterAddresses.RowsAreTiles | src/store.rs:863-885 | two puts share table and id exactly when they are for the same zoom and position |
| WriterAddresses.WriteTiles | src/store.rs:335-369 | without faults every put that the service makes is answered with success, created exactly when its tile was neither there nor put before, and each tile ends with the data, position and length of its last put |
| Writer.WriteTileBatch | src/store.rs:798-853 | commits exactly without a fault and with valid names, then as the in-order upserts; else the tables are unchanged |
| Writer.WriteWithRetry | src/store.rs:751-764 | at most four attempts, repeated only while the database is locked; a batch is written exactly if its names are valid and some attempt meets no fault after only locked ones |
| Writer.GatherBatch | src/store.rs:738-749 | a batch is the next 1 to 256 puts of the queue; it is shorter than 256 only when the next command is a shutdown or nothing had arrived |
| Writer.FailWriteBatch | src/store.rs:855-861 | every put of a failed batch gets the error on its own channel and none takes effect |
| Writer.AnswerBatch | src/store.rs:785-789 | every put of a committed batch gets, on its own channel, the outcome it would have had one at a time |
| Writer.WriterLoop | src/store.rs:730-796 | for any queue, cuts and faults: one fitting answer per dequeued command in order, tables equal the upserts of the puts answered Ok, each batch is answered as a whole, with success exactly if its own names and attempts let it commit, and the loop stops at the first shutdown |
| Writer.FaithfulAt | src/store.rs:730-796 | any answer fits the tables made by the successful puts before it |
| Writer.LastWriteWins | src/store.rs:827-834 | a row is that of the last put of its tile answered Ok, and otherwise as it was |
| Writer.CreatedOnlyOnce | src/store.rs:827-838 | `created` is reported exactly when the tile was neither there at the start nor acknowledged before |
| Writer.FailedOnlyWithItsBatch | src/store.rs:751-784 | a put fails exactly if the batch it was taken in does not commit |
| ShardLaws.NextKeeps | src/store.rs:584-796 | every step of requests, writers and closers keeps handle counts, pipelines, table and shutdown accounts |
| ShardLaws.RunKeeps | src/store.rs:584-796 | the same at every moment of every run |
| ShardLaws.IdleCloseSparesWaiters | src/store.rs:584-604 | a shard that a request holds or awaits is alive and in the table unless its directory is being dropped |
| ShardLaws.IdleCloseHasNoWork | src/store.rs:584-604 | a shard removed as idle has no user and nothing queued or taken |
| ShardLaws.ShutdownWaitsForPutsAhead | src/store.rs:723-796 | when a shutdown is answered every put queued ahead of it has been answered |
| ShardLaws.WaitersAreServed | src/store.rs:730-796 | an unanswered waiter is in its living writer's pipeline exactly once, or came after the shutdown of a dropped shard |
| ShardLaws.EachPutAnsweredOnce | src/store.rs:785-789 | no put is answered twice |
| ShardLaws.OneOpenWriterPerPath | src/store.rs:606-644 | at most one open shard per path |
| ShardProgress.PutSentOrRejected | src/store.rs:345-364 | a put that holds a shard can be sent exactly when the writer lives and the queue has room, and can be turned away exactly when not |
| ShardProgress.ReadFinishes | src/store.rs:311-333 | a read that holds a shard can finish, and is neither sent nor turned away |
| ShardProgress.RequestBegins | src/store.rs:606-644 | a new request can take the shard of its path exactly when the table has it, and open one exactly when not |
| ShardProgress.ReceivesExactly | src/store.rs:359-364 | a waiting task can go on exactly when it is answered or its writer has ended |
| ShardProgress.BatchTakenExactly | src/store.rs:738-749 | a living writer can take exactly the first 1 to 256 commands that are puts, when nothing is being written and no shutdown taken |
| ShardProgress.WriterNeverStuck | src/store.rs:730-796 | a living writer with anything queued, taken or to stop for can make a step |
| ShardProgress.WaiterNeverStuck | src/store.rs:345-369 | at every moment of every run a waiting task can go on, or the writer of its shard can |
| ShardProgress.RemovedExactly | src/store.rs:584-604 | idle closing can take a shard exactly when no task holds or awaits it, a drop can take any |
| ShardProgress.RemovalEffect | src/store.rs:584-604 | a removal takes its paths out of the table and touches no other shard |
| ShardProgress.ShutdownAskedExactly | src/store.rs:723-728 | the closer of a removed shard can queue its shutdown exactly when there is room |
| Paths.DecimalRoundTrip | src/store.rs:870-876 | decimal names parse back to their numbers |
| Paths.SplitUnique | src/store.rs:876 | names joined by `_` split in one way only |
| Paths.TableNameDetermines | src/store.rs:876 | a table name fixes zoom and 64-blocks |
| Paths.AddressInvertible | src/store.rs:863-898 | table name and id give back z, x and y; the id is below 4096; the table name alone fixes the shard file and its zoom |
| Paths.AddressInjective | src/store.rs:863-885 | for all ids: two tiles share shard file, table and id exactly when their coordinates are equal and their layers are the same or crossed |
| Paths.AliasOfLikeIds | src/store.rs:863-885 | and with databases that are both longer than four characters, or both not, exactly when they are the same tile |
| Paths.DatabaseDirectoriesNest | src/store.rs:1004-1011 | one database directory lies under another exactly when the ids overlap, never for ids over four characters |
| Paths.ItemDirectoriesNest | src/store.rs:1013-1020 | for all ids: exactly when one item directory lies under another |
| Paths.ItemDirectoriesEqual | src/store.rs:1004-1020 | two layers share their directory exactly when they are the same or crossed |
| Paths.ShortIdsShareDirectories | src/store.rs:1004-1020 | with short ids a layer directory is another database's directory, and two layers have one directory |
| Paths.ScanRecoversId | src/store.rs:391-435 | joining the levels of a database directory gives the id back; the scan of items gives the item id back exactly when it is longer than four characters, and otherwise the id with a zoom letter behind it |
| PathLaws.ValidIds | src/store.rs:1048-1058 | an id is valid exactly with 1 to 128 characters that are ASCII letters, digits, '-' or '_', by their codes |
| PathLaws.Addressed | src/store.rs:1033-1058 | a tile has an address exactly with valid ids, coordinates from 0, no type and zoom 0 to 25 |
| PathLaws.ShardFileReads | src/store.rs:863-875 | directories and shard file read back: four characters and the rest, the letter of the zoom from 9 up, and the region of 256 by 256 tiles |
| PathLaws.TableReads | src/store.rs:876-877 | table and id read back: the letter of the zoom, the block of 64 by 64 tiles, and the position within it |
| PathLaws.AddressExample | src/store.rs:1106-1134 | the address that the store's own test expects of one tile |
| Paths.ShardOwnership | src/store.rs:646-662 | for all ids: exactly which shards lie below a database or an item directory; for ids longer than four characters exactly that database's or item's |
| Layers.AbsorbDescribes | src/store.rs:472-484 | absorbing a table keeps min/max zoom and the extent at the top zoom true of the union |
| Layers.ExtendDescribes | src/catalog.rs:669-681 | so does the catalog's step for one put |
| Layers.DescriptionUnique | src/store.rs:472-484 | a tile set has one range only, so two that describe it are equal |
| Layers.SummaryUnique | src/store.rs:416-513 | the same for whole summaries |
| Layers.TableDisjoint | src/store.rs:456-468 | tables of different names share no tile, so the scan counts none twice |
| Layers.Aggregate | src/store.rs:461-468 | the aggregate row of a table is its count, byte sum and extent |
| Layers.ScanItem | src/store.rs:437-508 | the scan of any shard files and tables in any order is the summary of all tiles of the item |
| Catalog.GroupByLayer | src/catalog.rs:621-627 | each layer gets exactly its own puts, in queue order |
| Catalog.FoldGroup | src/catalog.rs:662-686 | the loop over a group is the fold of its puts |
| Catalog.WriteLayer | src/catalog.rs:630-713 | one group writes its row and keeps deltas equal to the change of the layer sums |
| Catalog.WriteLayers | src/catalog.rs:629-714 | in any order of groups: touched layers get their folded rows, others stay, deltas are the exact changes of the sums |
| Catalog.WriteDatabases | src/catalog.rs:715-722 | in any order every touched database is upserted once with its delta |
| Catalog.WriteCatalogBatch | src/catalog.rs:607-725 | a batch is written as a whole, with one time in every row it touches, or the catalog is as it was |
| CatalogRows.LayerRowWritten | src/catalog.rs:629-714 | the row of each layer after a batch, from its puts alone: a new one is unprotected and has the first name offered or none, an old one keeps flag and name; the last format; created tiles and bytes added, or the recalculated figures |
| CatalogRows.DatabaseRowWritten | src/catalog.rs:700-722 | the row of each database after a batch: a new one is unprotected, an old one keeps flag and name, an unset name becomes one that a put offers if any does, the path is that of a put, columns move with the layer rows and bytes stop at zero |
| Catalog.SumAfterUpdate | src/catalog.rs:687-699 | replacing a layer's row moves its database's sum by the difference and no other sum |
| Catalog.DeltaStep | src/catalog.rs:693-713 | adding a layer's difference to its database's delta keeps deltas exact |
| Catalog.UnitSumCounts | src/catalog.rs:712 | the layer count is the number of the database's layers |
| CatalogLaws.WriteConserves | src/catalog.rs:607-725 | a batch keeps database rows the sums of their layers, names that are set, and protection flags |
| CatalogLaws.RemoveLayerExact | src/catalog.rs:468-491 | removing a layer subtracts exactly what it contributed, MAX(0, …) clamps neither count, bytes stop at zero, the time is set; every other column and row stays |
| CatalogLaws.RemoveLayerConserves | src/catalog.rs:468-491 | and keeps the sums and settings of everything else |
| CatalogLaws.RemoveDatabaseConserves | src/catalog.rs:493-507 | removing a database takes its row and all its layers, and keeps the rows, sums and settings of the others |
| CatalogLaws.InsertLayers | src/catalog.rs:197-208 | the inserts succeed exactly when no item repeats |
| CatalogLaws.Rebuild | src/catalog.rs:174-213 | the rebuild gives the scanned catalog exactly when no id repeats and the transaction commits, else nothing changes |
| CatalogLaws.RebuildConserves | src/catalog.rs:176-209 | whatever was there before, a rebuild restores the sums, keeps name and flag of every surviving id, and gives every new layer and database no name and no protection |
| CatalogLaws.LayersRebuiltAt | src/catalog.rs:197-208 | every scanned layer gets the figures of its scan |
| CatalogBatches.RowSettings | src/catalog.rs:662-699 | a row keeps the name it has or takes the first offered one, takes the format of the last put and keeps its flag |
| CatalogBatches.RowsMove | src/catalog.rs:693-722 | without recalculation every database column moves as the sum over its layers |
| CatalogBatches.BatchesSplit | src/catalog.rs:607-725 | writing a + b gives the layer rows and database counts and bytes of writing a then b |
| CatalogWriter.Recalculate | src/catalog.rs:557-574 | succeeds exactly when all overwritten databases can be read, with exactly their layers |
| CatalogWriter.FlushCatalogBatch | src/catalog.rs:547-605 | lands exactly if the shards can be read and one of at most four attempts meets no fault after only locked ones; otherwise the batch is dropped and the catalog unchanged |
| CatalogWriter.CatalogWriterLoop | src/catalog.rs:510-545 | batches are the specified cuts of the queue, each flushed in turn, and together they are all the queued puts in order: closing the queue leaves nothing pending |
| CatalogWriter.NothingPending | src/catalog.rs:532-542 | the timer and a request to flush leave nothing pending: every put queued before is in a batch |
| CatalogWriter.PutEndsBatch | src/catalog.rs:524-530 | a put ends a batch exactly when its sender waits or it is the 65,536th |
| CatalogWriter.AnswersExactly | src/catalog.rs:524-605 | exactly the senders of waiting puts and of flush requests are answered, with whether the batch of all that was pending landed |
| CatalogWriter.CutsPartition | src/catalog.rs:522-545 | every queued put is in exactly one batch or pending, in queue order |
| CatalogWriter.CutsBounded | src/catalog.rs:517-530 | no batch is empty or over 65,536 puts, and fewer are ever left pending |
| CatalogWriter.WaitingPutIsFlushed | src/catalog.rs:524-530 | a put whose sender waits ends the batch that its arrival flushes |
| CatalogWriter.LoopConserves | src/catalog.rs:510-605 | whatever fails, database rows are the sums of their layers after every flush |
| CatalogWriter.LoopWritesOneBatch | src/catalog.rs:510-725 | without recalculation and failures the rows do not depend on how the queue was cut |
| CatalogRuns.FoldCounts | src/catalog.rs:682-685 | a fold adds exactly the created tiles and their bytes |
| CatalogRuns.FoldDescribes | src/catalog.rs:669-681 | a fold's range describes the old tiles and the batch's |
| CatalogRuns.NextKeeps | src/catalog.rs:547-725 | commits, puts that never reach the row, takes, directories opened and read table by table, finished and failed flushes keep the accounts of every layer balanced, for all ids, as long as its row comes from its own directory |
| CatalogRuns.NeverBelow | src/catalog.rs:547-725 | at any moment of any run, whatever fails or is lost: catalog count plus queued and lost creations is the true count plus the lag, never below it, unless the row was last recalculated from another directory |
| CatalogRuns.DrainedAgreement | src/catalog.rs:547-725 | with everything written and nothing lost, range and extent are the scan's; for an item id over four characters the row is the scan's if and only if no creation was queued when the last recalculation read its table; for a shorter one the count is the scan's, the bytes differ by the growth of overwritten tiles, and the row is the scan's if and only if that is zero |
| CatalogRuns.QuietRunsAgree | src/store.rs:447-468 | with ids over four characters, a run in which nothing goes missing and no table is read back while a creation in it is queued ends with the scan's row |
| CatalogRuns.LongIdsNeverSpoiled | src/store.rs:416-435 | with ids over four characters no row is ever recalculated from a directory that is not its layer's |
| CatalogRuns.NoFailureNoLoss | src/catalog.rs:556-605 | without failed flushes, discarded outcomes and puts to a layer crossed with this one nothing is lost |
| CatalogRebuild.RebuiltAt | src/catalog.rs:183-209 | every scanned layer has the rebuilt row of its scan |
| CatalogRebuild.MarkersListed | src/store.rs:391-414 | the directory of a database with an access marker is listed under its id, whatever its length, and nothing without a marker is |
| CatalogRebuild.DatabaseRowsFromMarks | src/catalog.rs:182-196 | after a rebuild there is a row for each marked directory and no other: path, size and last use of the marker, as many layers as directories walked, no name and no protection if the catalog did not have it, else its own |
| CatalogRebuild.LayerRowsFromWalk | src/catalog.rs:197-208 | and for each walked directory a row that summarizes the shard files there, with the same rule for name and protection |
| CatalogRebuild.RebuiltSums | src/catalog.rs:174-209 | after a rebuild database rows are the sums of their layers |
| Scan.TablesDistinct | src/store.rs:936-956 | no table name occurs twice among the shard files of an item, so the scan counts no tile twice |
| Scan.ScanFiles | src/store.rs:437-511 | the scan of a directory's shard files is the summary of the tiles they hold |
| Scan.Tilesets | src/store.rs:416-513 | the walk of a database lists every pair of levels below it that join to a valid id, each once, with the summary of the shard files below |
| Scan.ListDatabases | src/store.rs:391-414 | the listing finds every directory with an access marker on the first two levels, each once |
| Scan.ScanAll | src/catalog.rs:128-146 | the scan succeeds exactly when all listed ids are valid, and then lists every marked database with its walk |
| CatalogRebuild.RebuildFromShards | src/catalog.rs:120-214 | from the directories to the catalog: the rebuild succeeds if and only if listed ids are valid, no two directories join to the same id and nothing fails; then the catalog is that of the scan, else it is as it was |
| CatalogRebuild.SucceedsExactly | src/catalog.rs:176-208 | ids repeat in a scan exactly when two marked or two walked directories join to the same id |
| CatalogRebuild.RowFrom | src/store.rs:416-511 | for all ids: the row of a listed layer is the summary of the one walked directory whose levels join to its item |
| CatalogRebuild.RebuildAccurateExactly | src/catalog.rs:120-214 | unless another directory with shard files joins to the layer's item: after a rebuild the row is accurate if and only if the layer has no tiles, or its database is listed and its item id is over four characters |
| CatalogRebuild.LongDatabasesRebuild | src/store.rs:391-435 | with database ids over four characters all listed ids are valid, none repeats, and no directory with shard files joins to another layer's item |
| CatalogRebuild.LongRebuild | src/catalog.rs:120-214 | so with such ids a rebuild succeeds exactly without a fault, and the condition on the row is exact for every layer |
| CatalogRebuild.ZoomDirectoryListed | src/catalog.rs:197-208 | in place of a layer with a short item id each of its zoom directories gets a row, with the settings the catalog had for that name, or none |
| CatalogRebuild.RebuildForgetsProtection | src/catalog.rs:176-208 | a concrete rebuild without faults: the row of the protected layer "abc" is gone, its tile stays, and an unprotected, empty layer "abcJ" is listed |
| CatalogDoubleCount.RecalculationCountsTwice | src/catalog.rs:557-574 | a concrete run with ids over four characters and without failures or losses after which a layer's count exceeds its tiles |
| CatalogDoubleCount.WriteExists | src/catalog.rs:607-725 | a batch of one put can always be written |
| CatalogDoubleCount.TakesOldest | src/catalog.rs:524-545 | a flush can begin exactly when none is under way and something is queued, and takes the oldest puts in order |
| CatalogDoubleCount.FailHappens | src/catalog.rs:556-605 | a flush can fail at any moment of a run |
| CatalogDoubleCount.DiscardHappens | src/api.rs:380-411 | the outcome of any valid put can be lost on its way to the catalog |
| CatalogShortIds.OverwriteOfShortItemStays | src/catalog.rs:682-691 | a concrete run without failures: a tile of item "abc" is overwritten and flushed, and the row keeps the old bytes |
| CatalogShortIds.ZoomDirectoryEmptiesRow | src/store.rs:416-435 | a concrete run without failures: a tile of item "abJ" is written anew and flushed, and the row counts nothing, read from the zoom directory of item "ab" |
| Coherence.SerialStep | src/store.rs:306-369 | for all ids: a serial step keeps cache and rows in agreement if and only if it is not a committed put that the cache does not admit over a cached tile, a put to a row that a crossed layer's cached tile shares, or a drop that reaches a cached tile of other ids |
| Coherence.RunStores | src/store.rs:335-369 | for all ids: the stored value is that of the last committed put to the tile's row that no drop reached, and the last put of that very tile if the other ids spare its row |
| Coherence.GetReturnsLastPut | src/store.rs:306-333 | in serial runs that never lose agreement a read returns that value |
| Coherence.LocationsShared | src/store.rs:863-885 | exactly which tiles share a row |
| Coherence.LongIdsSpare | src/store.rs:335-369 | operations on ids longer than four characters touch no row but their own |
| Coherence.OversizePutReadsOld | src/store.rs:126-128 | after a small put and a too large one to the same tile every read still returns the small one |
| Coherence.OversizeRunExists | src/store.rs:126-128 | such a run exists |
| Coherence.CrossedLayersMix | src/store.rs:1004-1020 | a put to one layer is read as a tile of the layer crossed with it |
| Coherence.EventKeeps | src/store.rs:306-369 | every interleaved step keeps cached, pending and stored values traceable to commits of a tile with the same row |
| Coherence.CachedWasCommitted | src/store.rs:306-369 | with get, put and drop interleaved freely, a cached value is not empty and was committed earlier for that very tile, unless a commit was to a crossed layer |
| CoherenceRuns.GetCaches | src/store.rs:306-333 | a read that finds the tile in the shard caches it if it fits, any other read leaves every cached value, none changes a row |
| CoherenceRuns.PutCaches | src/store.rs:335-369 | a committed put is stored, and cached if it fits; any other changes nothing |
| CoherenceRuns.DropForgets | src/store.rs:167-173 | a drop with valid ids takes exactly the tiles of these ids out of the cache |
| CoherenceRuns.ReadOvertakenByPut | src/store.rs:308-331 | a concrete interleaving after which the cache answers an older value than the row holds |
| CoherenceRuns.ReadOvertakenByDrop | src/store.rs:541-552 | a concrete interleaving after which the cache answers a tile that was dropped |
| Cleanup.ExpiredDatabases | src/store.rs:567-582 | candidates are the databases last used before the cutoff, in listing order |
| Cleanup.ExpiredMember | src/store.rs:575-580 | candidates are exactly the listed databases with a time of last use before the cutoff; without a time, or in the very second of the cutoff, none |
| Cleanup.ExpiredInOrder | src/store.rs:567-582 | in the order of the listing |
| Cleanup.RemoveTree | src/store.rs:549-551 | removal takes only what is below the directory, and all of it unless it fails |
| Cleanup.RemoveEmptyParents | src/store.rs:1077-1088 | of the parents of a database's directory exactly the first level goes, if nothing is left below it and its removal does not fail |
| Cleanup.WrittenFaithful | src/catalog.rs:300-302 | writing the pending puts adds or changes only their own rows, no flag and no set name, and keeps the sums |
| Cleanup.FlushPending | src/catalog.rs:300-302 | the flush before a removal writes the pending puts in one transaction; if it fails they are lost and the catalog and the disk are as they were |
| Cleanup.RemoveRows | src/catalog.rs:468-507 | if flush and delete succeed the rows of the target are removed from the flushed catalog; if either fails every row stays; no path changes |
| Cleanup.DropTarget | src/store.rs:541-565 | a directory that is there and can be looked at goes, its emptied parent and its rows with it, unless an operation fails; a failed removal leaves the rows, and so does a failed flush or delete after the directory has gone; a directory that is absent or cannot be looked at changes nothing at all |
| Cleanup.DropUnprotectedLayers | src/api.rs:933-960 | of a guarded database exactly the unprotected layers are gone about, and no database is counted |
| Cleanup.CleanupOne | src/api.rs:929-999 | one turn does all there is to do about a database and nothing about any other, and counts the database exactly if its directory was found and dropped |
| Cleanup.CleanupExpired | src/api.rs:920-1001 | on every exit: only permitted targets were gone about, exactly the directories were found that were there and could be looked at when their turn came, rows go only with a directory that was found, and every other path, row, name, flag and sum is kept; on success all due targets had their turn in order and the result is the number of databases found and dropped; an error means that an operation failed or an id was invalid |
| CleanupLaws.PathAfter | src/store.rs:541-565 | a path is left exactly when it was there, no directory found covers it, and it is no first level emptied by the drop of a database |
| CleanupLaws.HitsThere | src/store.rs:548-560 | every directory found was there at the start, of valid ids, and could be looked at |
| CleanupLaws.UnlicensedRowsStay | src/api.rs:931-999 | on every exit rows of unexpired databases, of guarded databases and of protected layers are there, unchanged where no pending put concerns them, and protected layers are still protected |
| CleanupLaws.AbsentRowsStay | src/api.rs:935-980 | on every exit the rows stay of databases and layers whose directories were not there, expired or not |
| CleanupLaws.DatabaseDueExactly | src/api.rs:929-962 | a whole database is due exactly when it was last used before the cutoff and neither it nor one of its layers is protected |
| CleanupLaws.LayerDueExactly | src/api.rs:935-945 | a layer is due exactly when it is unprotected, its database was last used before the cutoff, and something else in it is protected |
| CleanupLaws.DoneExactly | src/api.rs:929-960 | a successful cleanup goes about exactly the targets that are due |
| CleanupLaws.TurnsInOrder | src/api.rs:929-960 | and about databases in the order of the candidates |
| CleanupLaws.CoveredExactly | src/api.rs:929-980 | after a success the paths covered are exactly those below due targets whose directories could be looked at, whichever were found |
| CleanupLaws.LoneTargetDropped | src/api.rs:961-980 | a due target that was there, could be looked at and is covered by no other is wholly gone, paths and rows |
| CleanupLaws.SurvivesExactly | src/store.rs:541-565 | after a success a path is there exactly when it was, no directory found covers it, and it is no first level that lost all below it with a database |
| CleanupLaws.EmptyParentGoes | src/store.rs:1077-1088 | the first level of a dropped database is gone too when nothing else was below it, unless its removal fails |
| CleanupLaws.ApartTileStays | src/api.rs:920-1001 | on every exit the shard of a tile stays that no permitted target reaches |
| CleanupLaws.TileSurvivesExactly | src/api.rs:920-1001 | after a success a shard survives if and only if no due target whose directory can be looked at reaches it by its ids; for a protected or unexpired tile that could only be a target of other ids |
| CleanupLaws.LongIdsApart | src/store.rs:1004-1020 | with ids longer than four characters none does |
| CleanupLaws.ApartDatabaseStays | src/api.rs:920-1001 | on every exit the directory of a database with an access marker stays that no permitted target overlaps |
| CleanupLaws.DatabaseSurvivesExactly | src/api.rs:920-1001 | after a success it survives if and only if no due target overlaps it whose directory can be looked at |
| CleanupLaws.CountExactly | src/api.rs:961-1000 | with database ids over four characters the returned number is that of the expired databases that nothing protects and whose directories can be looked at |
| CleanupLaws.ShortIdTakesProtected | src/store.rs:554-565 | any cleanup of a concrete listing in which nothing fails succeeds, drops the expired "abcd" and with it the files of the protected, unexpired "abcdefgh", whose row stays |
| Stats.AddAll | src/stats.rs:293-313 | adding a batch adds every field of every hour once and keeps hits + misses = gets |
| Stats.RecordKeeps | src/stats.rs:323-334 | recording keeps bucket = loaded + recorded = persisted + pending + in flight for retained hours |
| Stats.LandKeeps | src/stats.rs:286-296 | so does the end of a flush, by commit or by restore |
| Stats.ConservedUnlessRecounted | src/stats.rs:274-321 | nothing is lost, and nothing counted twice if and only if no batch restored after its commit held anything of the kind for the hour |
| Stats.AccessStats.constructor | src/stats.rs:84-111 | starting loads exactly the rows of the last 2160 hours |
| Stats.AccessStats.Update | src/stats.rs:323-334 | one event is recorded in bucket and pending alike, field by field; exactly the hours more than 2160 back leave the buckets |
| Stats.AccessStats.RecordGet | src/stats.rs:114-124 | a read counts one request and a hit with its bytes or a miss, in bucket and pending alike, and nothing else changes |
| Stats.AccessStats.RecordPut | src/stats.rs:126-131 | a put counts one request and its bytes, in bucket and pending alike, and nothing else changes |
| Stats.AccessStats.TakePending | src/stats.rs:274-282 | a flush takes all pending counts and leaves none |
| Stats.AccessStats.CommitBatch | src/stats.rs:300-314 | a commit adds the batch to the table, field by field, and leaves it to its prune |
| Stats.AccessStats.PruneRows | src/stats.rs:315-319 | the prune of a committed batch keeps exactly the rows of the last 2160 hours |
| Stats.AccessStats.RestoreBatch | src/stats.rs:287-296 | a failed flush puts its batch back |
| Stats.AccessStats.RestoreCommitted | src/stats.rs:287-319 | a batch whose prune failed after its commit is put back too, which counts it again |
| Stats.AccessStats.Flush | src/stats.rs:274-321 | one flush: take, commit, prune; without a fault everything pending is persisted, a failed transaction changes nothing, a failed prune leaves the batch both persisted and pending |
| Stats.FlyingNothing | src/stats.rs:293-295 | batches hold nothing for an hour exactly if each holds nothing |
| Stats.PruneFailureCountsTwice | src/stats.rs:287-319 | a concrete run: one read recorded, its prune failing once, and the table holds two |
| Stats.AccessStats.Recent | src/stats.rs:133-155 | the report lists the last hours in order, each of the last 2160 the loaded rows plus the fold of the event log, hits + misses = gets |
| Schedule.LocalTimes | src/main.rs:235-237 | local days and hours are those of 86,400 and 3,600 seconds, eight hours ahead |
| Schedule.NextCleanupIsNext | src/api.rs:1071-1076 | the announced time is the least moment after now that begins the configured local hour, at most a day away |
| Schedule.MaintenanceLoop | src/main.rs:206-287 | the loop records exactly the specified runs and sweeps |
| Schedule.SweepsApart | src/main.rs:213-222 | idle sweeps are five minutes or more after the start and after each other |
| Schedule.NoSweepMissed | src/main.rs:213-222 | every tick from five minutes after the start has a sweep in the five minutes up to it |
| Schedule.ScheduledFirstOfDay | src/main.rs:234-247 | a scheduled run is the first run of its local day |
| Schedule.OneScheduledRunPerDay | src/main.rs:234-247 | at most one scheduled run per local day |
| Schedule.ScheduledInConfiguredHour | src/main.rs:231-247 | and only at a tick in the hour then configured, with cleanup enabled |
| Schedule.ManualRecorded | src/api.rs:895-917 | a cleanup that an administrator starts is on record |
| Schedule.UnscheduledWasManual | src/api.rs:895-917 | and every record that is not scheduled is of such a cleanup |
| Schedule.TickRecords | src/main.rs:231-286 | a tick in the configured hour leaves a run on record for its day |
| Schedule.EveryDayHasARun | src/main.rs:206-287 | with ticks under an hour apart and fixed settings every full local day has a run |
| Search.EscapingIsOnePass | src/catalog.rs:792-798 | the three replacements in their order are one-pass escaping |
| Search.LikeEscaped | src/catalog.rs:792-798 | an escaped query matches itself and nothing else under LIKE |
| Search.LikePercent | src/catalog.rs:311-313 | a leading `%` tries every suffix |
| Search.PatternFindsSubstrings | src/catalog.rs:304-315 | a name matches exactly when the query occurs in it, for all queries, names and case foldings |
| Percent.PercentDecode | src/api.rs:802-821 | the scanning loop gives the decoded bytes, the first error from the left, or a UTF-8 error |
| Percent.DecodingInvertsEncoding | src/api.rs:802-821 | a text decodes to some bytes exactly when it is a percent-encoding of them |
| Percent.DecodesWhenWellFormed | src/api.rs:802-821 | decoding succeeds exactly when two hex digits, by their codes, follow every `%` (section 2.1 of RFC 3986) |
| Percent.FirstErrorDecides | src/api.rs:806-816 | the first `%` without them decides the error: too few bytes, or a byte that is no digit |
| Percent.RoundTrip | src/api.rs:802-831 | decoding any encoding, in either case and with any choice of escaped bytes that includes `%`, gives the data back |

## Left out

- HTTP routes, authentication, configuration, the dashboard, health and process metrics: plumbing around the core.
- SQLite, write-ahead logging, connection pools and the file system: maps, atomic transactions and path sets stand for them; a commit is one event.
- Liveness: runs say what holds at each moment, not that a queue is eventually drained.
- CatalogRuns.NextKeeps: removals and rebuilds are no steps of these runs; a rebuild gives the accurate rows from which runs start.
- CatalogRuns.NeverBelow: says nothing of a row while its last recalculation was from another layer's directory, which takes a short id; `CatalogShortIds.ZoomDirectoryEmptiesRow` is such a run.
- CatalogRebuild.RebuildFromShards: the flush before the scan is left to `CatalogWriter`, nothing is committed while the scan runs, and a directory that cannot be looked at is not told from one that is absent.
- CatalogWriter.LoopWritesOneBatch: runs with recalculation or failed flushes are left to `CatalogRuns`.
- Coherence.SerialStep: a drop that fails half-way is part of the interleaved runs only.
- Cleanup.CleanupExpired: flags do not change and no put is committed meanwhile, and the listing names each database once; the history records and the order in which the layers of one database are dropped are not modelled.
- CleanupLaws.TileSurvivesExactly: parents of existing paths exist, and pending puts create no layer in an expired database that stays; without that the targets are those of `CleanupLaws.SurvivesExactly`.
- TileMemoryCache.Cache.Insert: asks that resident bytes plus the new tile fit a `usize`, as tiles in one address space do, so that saturation never starts; the tick counter does not wrap at 2^64.
- TileMemoryCache.PopLeast: the binary heap is a multiset from which a least tick is popped; its array layout is the standard library's.
- Catalog.WriteDatabases: which of several offered database names and paths wins depends on the order of a hash map; the model says only that they come from puts of that database.
- Database bytes as a sum of layer bytes: a rebuild stores the size of the directory instead (src/catalog.rs:190), so no such sum holds; `CatalogBatches.RowsMove` says how bytes move between rebuilds.
- ShardLaws.RunKeeps: cancelled requests, a writer that ends because every sender is gone, and the closer's last drop of its handle are not steps.
- Schedule.OneScheduledRunPerDay: the clock does not go back, runs are recorded in time order and recording them succeeds, as src/main.rs:234-247 relies on.
- Schedule.MaintenanceLoop: works off a finite stretch of events, and reads its clock once per event; closing idle shards is modelled in `Shards`.
- Stats.AccessStats.Update: the hour read from the clock never decreases; casts between `u64` and `i64` are not modelled.
- Schedule.NextCleanupIsNext: the clock is two days or more below the largest 64-bit second, so that no sum overflows.
- When access markers are written, list pages and their sorting, the sniffing of tile formats and the sample that gives a scanned layer its format are not modelled.
- `set_database_revocable`, `set_layer_revocable` and the rename operations: single-column updates that touch no count.
