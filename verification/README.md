# Verification models of LevelDB, libuv and nanopb

The app vendors three C and C++ libraries whose logic is worth proving: LevelDB (`App/ios/Pods/leveldb-library`), the
libuv copy of gRPC (`App/ios/Pods/Libuv-gRPC`) and nanopb (`App/ios/Pods/nanopb`). The Dafny files here model their
hardest parts and prove what these parts promise, on all inputs and over all runs. `dafny verify dfyconfig.toml`
verifies everything.

## How it is organised

Three concurrent or crash-prone protocols are state machines: a `State`, one predicate per step between two releases of
a lock (or per single load or store, where no lock is held), and `Run` for the sequences of states that steps connect.
What steps keep is an invariant, and the main results speak of every state of every run.

- `Store*.dfy`: the database over crashes. Writes, memtable switches, flushes, merges that may be interrupted by a
  flush, manifest writes, file deletion, failing appends, syncs, table builds and manifest writes, crash and recovery.
  The record `rec` says what has become durable, and the history what has been completed. `StoreStrays.dfy` follows
  failed writes whose record was stored, `StoreReads.dfy` follows a read, or the snapshot it was given, from its
  beginning on, `StoreProgress.dfy` brings every write, flush and merge to its end, and `StoreRuns.dfy` has two runs in
  which an acknowledged write is lost.
- `VersionFiles.dfy`, `CompactionInputs.dfy`: the searches of the version set over lists of files, which give the
  database machine its reads, its merge inputs and its answers about deeper levels.
- `WriteQueue.dfy`: the queue of writers and group commit; `WritePath.dfy` runs it and the database machine as one, so
  that "completed" means that Write has returned success.
- `SkipList.dfy`: the skip list with one writer and readers without locks, each pointer store and load one step; and the
  list as a class, whose methods go through the same steps.
- `ThreadPool.dfy`: submit, worker, cancel and done of the thread pool.
- `Runs.dfy`: short complete runs of the last three machines.

Sequential code that changes state is a class or a method with loops, proved against functions on values.

- `Entries.dfy`, `Compaction.dfy`, `Snapshots.dfy`: updates and what a read returns, the merge loop, live snapshots.
- `MemTable.dfy`, `DBIter.dfy`: internal keys and memtable entries as bytes, in the skip list; the iterator over user
  keys.
- `Log*.dfy`, `WriteBatch.dfy`, `Recovery.dfy`: the log's byte format, its writer (whose file calls may fail) and
  reader, damaged, cut, torn and reused logs, batches and replay.
- `Block*.dfy`, `FilterBlock.dfy`: prefix-compressed blocks and the filter block of a table.
- `Queue.dfy`, `Heap.dfy`, `Timer.dfy`: libuv's circular lists, heap of linked nodes and timers.
- `Punycode.dfy`: the encoder of a domain label, with 32-bit arithmetic, against the decoder of RFC 3492.
- `Nanopb*.dfy`: encoder and decoder streams, a functional decoder, and the round trip. `NanopbWire.dfy` reads the
  encoder's bytes by the wire format alone.
- `Coding.dfy`, `Wrappers.dfy`: integers as bytes, and a few shared definitions. `KnownBytes.dfy` has short examples of
  every format, byte by byte.

## Assumptions

- Internal keys are well formed, and no two updates of a key have the same sequence number.
- User keys are numbered in comparator order where only their order matters; comparators are weak orders, and the heap's
  is a strict total order.
- The merges of the database machine take inputs of whose keys only newer entries stay behind on their two levels.
  `CompactionInputs.SetupOtherInputs` says exactly when the code's choice is of this kind.
- The lists of files of a version are laid out as the version set checks them: sorted and without overlap of internal
  keys above level 0, each with the range of its table, and with numbers of their own.
- A manifest record takes effect as a whole or not at all, and records after it are found. This leaves out a MANIFEST
  with a torn record, because its write failed (`App/ios/Pods/leveldb-library/db/version_set.cc:842-857`), or was
  interrupted and the file then reused (`App/ios/Pods/leveldb-library/db/version_set.cc:1013-1042`). The MANIFEST is a
  log file like the others, so `LogTorn.AcknowledgedButLost` and `LogReuse.ReusedCutLosesRecord` hold of its records too.
- Bytes that an append has stored survive a crash of the process. An append that fails may have stored its record or
  not, and one that a crash interrupts leaves part of it; from then on the log is torn, and whether later groups of that
  log are found is left open, in both directions. Recovery does not run in paranoid mode, and logged batches are well
  formed.
- A checksum is a function of type and payload; the block size is any number above the header size for which fragments
  fit 16 bits.
- A filter policy accepts the keys a filter was built from.
- Loads and stores are sequentially consistent.

## Findings

- A failed append does not stop later writes to the same log, but the writer's block offset has moved on
  (`App/ios/Pods/leveldb-library/db/log_writer.cc:82-108`, `App/ios/Pods/leveldb-library/db/db_impl.cc:1204-1236`). A
  later write can then be acknowledged, read, and lost by recovery. `LogTorn.AcknowledgedButLost` is this in bytes,
  `StoreRuns.TornLogLosesAWrite` as a run.
- A log whose last append was interrupted by a crash is reused without a look at its end, with `reuse_logs`
  (`App/ios/Pods/leveldb-library/db/db_impl.cc:458-470`). What is appended to it can be lost, without any failing call:
  `LogReuse.ReusedCutLosesRecord` in bytes, `StoreRuns.ReusedCutLosesAWrite` as a run. Reuse is safe if the log ends
  with a whole fragment (`LogReuse.ReuseKeepsRecord`).
- `StoreTheorems.CompletedWritesAreDurable` says exactly what is safe: a completed write is durable if and only if it is
  not among the groups at risk, and no group is at risk as long as no live log of the process is torn in one of these
  two ways. `StoreTheorems.FreshLogIsNotTorn`: a reopening that does not reuse a torn log begins without risk.
- Merge inputs from the next level do not get the boundary files that those from the first level get
  (`App/ios/Pods/leveldb-library/db/version_set.cc:1407-1411`). If a user key is split between the last file taken and
  the next one, a deletion marker can be dropped while the value it hides stays: `CompactionInputs.SplitKeyResurrects`.
  `CompactionInputs.SetupOtherInputs` and `CompactionInputs.MergeKeepsExactly` are the exact conditions.
- A write that is reported as failed may have been stored, and is then found after a crash
  (`StoreTheorems.ReopenRestoresEveryWrite`).
- The merge loop's initial value for the last sequence number is also a possible smallest snapshot; with a smallest
  snapshot of 2^56 - 1 it would drop every entry. `Compaction.ScanKeepsExactly` states both cases.
- The Punycode encoder reports an overflow exactly if a distance does not fit 32 bits, which no label of up to 3855 code
  points has and some label of 3856 has.
- nanopb counts the bit position of a 32-bit varint in eight bits. From 38 bytes on it can take late bits for low bits
  of the value where it should report an overflow: `NanopbVarint.WrapsExactly`.

## Model

| member | source | states |
|---|---|---|
| `StoreTheorems.CompletedWritesAreDurable` | App/ios/Pods/leveldb-library/db/db_impl.cc:535-566 | In every reachable state, every completed write is recoverable from the tables of the manifest and its live logs, except the groups named as at risk; a completed write is lost only if it is in that set, and the set is empty unless a live log of the process is torn: an append to it failed, or a crash interrupted one before the log was reused. What compaction dropped is never needed at or above the horizon, and no table of the manifest is deleted. |
| `StoreTheorems.FreshLogIsNotTorn` | App/ios/Pods/leveldb-library/db/db_impl.cc:458-470 | A reopening that does not reuse a torn log starts with no torn log of its own, so nothing it appends is at risk until an append fails. |
| `StoreTheorems.ReopenRestoresEveryWrite` | App/ios/Pods/leveldb-library/db/db_impl.cc:280-369 | After any run and crash, also one inside an append, reopening serves for every key the newest durable update, and the new sequence number covers every durable update. Durable are also writes that were reported as failed although their record had been stored. |
| `StoreTheorems.RecoveryIsPossible` | App/ios/Pods/leveldb-library/db/db_impl.cc:300-369 | From every crashed state some reopening is possible, so the reopening theorem is never vacuous. |
| `StoreTheorems.ReadsReturnCompletedWrites` | App/ios/Pods/leveldb-library/db/db_impl.cc:1100-1145 | For every run and every read in progress: the first hit in the order mem, imm, the tables of level 0 from the newest on, levels 1 to 6 is the newest completed update at the read's sequence number, all tables it needs still exist, and it sees each group entirely or not at all. Which sequence number that is, is the matter of the next three rows. |
| `StoreReads.ReadsSeeTheirStart` | App/ios/Pods/leveldb-library/db/db_impl.cc:1100-1145 | In every run, at every moment of a read and for every key: what it finds is the newest of all updates that were completed when the read began, or when the snapshot it was given was taken, and none completed later; whatever is switched, flushed, merged or deleted in the meantime. |
| `StoreReads.EveryReadBegan` | App/ios/Pods/leveldb-library/db/db_impl.cc:1105-1117 | And every running read is of this kind: it has a step at which it began and, with a snapshot, an earlier one at which that snapshot was taken. |
| `StoreReads.MergeHorizon` | App/ios/Pods/leveldb-library/db/db_impl.cc:890-894 | What a merge may drop is decided by the oldest live snapshot, or by all that is completed if there is none: no live snapshot and no later read is below it. |
| `StoreTheorems.ReadersHaveAnOrder` | App/ios/Pods/leveldb-library/db/version_set.cc:346-365 | In every run the tables of level 0 that a read needs can be ordered from the newest on, and each is newer in all keys it shares with a later one. |
| `StoreTheorems.FirstHitIsLookup` | App/ios/Pods/leveldb-library/db/db_impl.cc:1125-1134 | If earlier sources are newer for every key they share, stopping at the first hit equals a lookup in the union of the sources. |
| `StoreTheorems.StepKeeps` | App/ios/Pods/leveldb-library/db/db_impl.cc:496-1256 | Every one of the 26 steps (write, switch, flush, merge, manifest, deletion, crash, recovery), with the failures of each, keeps the invariants from which the theorems follow, also for failed writes whose record was stored. |
| `StoreProgress.AnyWriteIsPossible` | App/ios/Pods/leveldb-library/db/db_impl.cc:1185-1256 | From every state of every run without a background error there is a path on which the write in progress ends and any further write is served: its updates are then completed under the next sequence numbers. |
| `StoreProgress.FlushCanFinish` | App/ios/Pods/leveldb-library/db/db_impl.cc:535-566 | From every such state a memtable that waits to be flushed can be flushed, wherever the background work is, with nothing else happening to the writes: writers do not wait for room for ever. |
| `StoreProgress.MergeCanFinish` | App/ios/Pods/leveldb-library/db/db_impl.cc:878-1010 | A running merge can be brought to its end: its outputs hold what the rule keeps and stand in place of its inputs. |
| `StoreProgress.ReadCanBegin` | App/ios/Pods/leveldb-library/db/db_impl.cc:1100-1120 | A read can begin and a snapshot can be taken at any time. |
| `StoreRuns.TornLogLosesAWrite` | App/ios/Pods/leveldb-library/db/db_impl.cc:1204-1236 | A concrete run in which a write that was acknowledged and readable is gone after a crash and a reopening, because an earlier append to the same log had failed: the exception in the durability theorem is real. |
| `StoreRuns.ReusedCutLosesAWrite` | App/ios/Pods/leveldb-library/db/db_impl.cc:458-470 | The same without any failing call: a crash interrupts an append, the reopened database reuses the log, and a write that it acknowledges is gone after the next crash. |
| `VersionFiles.Get` | App/ios/Pods/leveldb-library/db/version_set.cc:326-421 | Asking in each level at most the files named by the search, level 0 from the newest on, and stopping at the first that has the key, finds the newest entry of the key in the whole version up to the sequence number, or none exactly if there is none. |
| `VersionFiles.DbGet` | App/ios/Pods/leveldb-library/db/db_impl.cc:1122-1136 | In every reachable state, memtable, then the memtable being flushed, then the files of the version return the newest update of the key that was completed when the read began, or when its snapshot was taken. |
| `VersionFiles.OneFileTells` | App/ios/Pods/leveldb-library/db/version_set.cc:366-381 | Above level 0 one file decides: the earliest that ends at or after the key and sequence number, also if the user key is split over several files. |
| `VersionFiles.FindFile` | App/ios/Pods/leveldb-library/db/version_set.cc:88-108 | The earliest file whose largest key is at or after the target. |
| `VersionFiles.SomeFileOverlapsRange` | App/ios/Pods/leveldb-library/db/version_set.cc:122-159 | True exactly if a file overlaps the range of user keys, for sorted and for overlapping files. |
| `VersionFiles.PickLevelForMemTableOutput` | App/ios/Pods/leveldb-library/db/version_set.cc:491-516 | A table of a memtable goes to the deepest of the levels 0 to 2 that the tests admit: no level down to it overlaps the table, and no level two below one it passes overlaps too much. What the database machine expects of the choice follows: no level down to its own has a key of the table. |
| `CompactionInputs.GetOverlappingInputs` | App/ios/Pods/leveldb-library/db/version_set.cc:519-559 | The files that overlap the range; on level 0 those of the least larger range that no file sticks out of. It terminates although the search restarts. |
| `CompactionInputs.AddBoundaryInputs` | App/ios/Pods/leveldb-library/db/version_set.cc:1378-1401 | The files added are, one after the other, the first file of the level that goes on with the last user key so far, and no others; in the end no file of the level goes on with it, and between two files taken none is left out. |
| `CompactionInputs.SetupOtherInputs` | App/ios/Pods/leveldb-library/db/version_set.cc:1403-1462 | The files taken leave only newer entries behind on both levels, as the database machine expects, if and only if no user key is split between the last file taken from the next level and the file behind it. The files from the next level are those that the least choice on the first level overlaps, and that choice is widened exactly if the wider one is larger, fits, and brings in no more files of the next level. |
| `CompactionInputs.MergeKeepsExactly` | App/ios/Pods/leveldb-library/db/version_set.cc:1403-1462 | Installing the merge of these files leaves all reads at or above the smallest snapshot unchanged if and only if no deletion marker that decides such a read is dropped while the next level keeps a value of its key in a file behind those taken. |
| `CompactionInputs.SplitKeyResurrects` | App/ios/Pods/leveldb-library/db/version_set.cc:1407-1410 | A version and a merge of it, chosen as the code does, after which a deleted key has its old value again. |
| `CompactionInputs.BaseLevel.IsBaseLevelForKey` | App/ios/Pods/leveldb-library/db/version_set.cc:1533-1552 | With the places kept from call to call, and keys asked about in ascending order: true exactly if no deeper file has the key in its range. |
| `CompactionInputs.BaseIsGood` | App/ios/Pods/leveldb-library/db/version_set.h:347-350 | These answers are what the database machine expects: yes only if no deeper level has the key. |
| `Compaction.CompactionKeepsExactly` | App/ios/Pods/leveldb-library/db/db_impl.cc:946-960 | For any split into shallower, merged and deeper entries, dropping entries by the rule leaves every read at or above the smallest snapshot unchanged if and only if no dropped deletion marker decides a read while a deeper level has a value. |
| `Compaction.CompactionPreservesMeaning` | App/ios/Pods/leveldb-library/db/db_impl.cc:946-960 | So it does for every answer of IsBaseLevelForKey that is right. |
| `Compaction.ScanKeepsExactly` | App/ios/Pods/leveldb-library/db/db_impl.cc:937-963 | The scan's previous-entry test keeps exactly the entries the rule keeps, provided the smallest snapshot is below the maximal sequence number; at the maximal number itself the scan would drop everything, which the contract states too. |
| `Compaction.CompactionState.DoCompactionWork` | App/ios/Pods/leveldb-library/db/db_impl.cc:878-1010 | The output files, in order, hold exactly the entries the scan keeps, and a new file begins exactly where, between two kept entries, an entry scanned asks for a stop or the file is full. |
| `Compaction.MergeOutputPreservesMeaning` | App/ios/Pods/leveldb-library/db/db_impl.cc:929-996 | The two results together: the files the merge writes can replace its inputs without changing any read at or above the smallest snapshot. |
| `Compaction.HorizonIsTight` | App/ios/Pods/leveldb-library/db/db_impl.cc:890-893 | The bound cannot be lowered: one below the smallest snapshot there is a read that the merge changes. |
| `WriteQueue.WritersCompleteInOrder` | App/ios/Pods/leveldb-library/db/db_impl.cc:1185-1256 | In every run: completed writers followed by the queue are the arrivals in order, without repetition; each completed writer has the status of its round; each round's group is the in-order merge of its members' batches; groups use up the sequence numbers without gap or overlap; at most one writer is in the log section. |
| `WriteQueue.NoLostWakeup` | App/ios/Pods/leveldb-library/db/db_impl.cc:1191-1253 | In every run, a sleeping writer is queued, not at the front and not done; the front writer is never asleep. |
| `WriteQueue.QueueCanDrain` | App/ios/Pods/leveldb-library/db/db_impl.cc:1191-1253 | From every state of every run, steps of the writers alone can empty the queue with every writer in it completed. |
| `WriteQueue.BatchGroup.Build` | App/ios/Pods/leveldb-library/db/db_impl.cc:1260-1306 | The group is the longest prefix the rule admits, its updates are the merged batches in order, and only a group that needed merging uses the shared scratch batch. |
| `WriteQueue.GroupIsUnique` | App/ios/Pods/leveldb-library/db/db_impl.cc:1279-1305 | The rule determines how many writers a group serves. |
| `WriteQueue.GroupLimits` | App/ios/Pods/leveldb-library/db/db_impl.cc:1267-1298 | A group's batches exceed 128 KB more than the first, or 1 MB if the first has more than 128 KB, only if the group is that first one alone; it ends exactly at the end of the queue, before a synced write if it is not synced itself, or before a batch that would exceed the limit; and it is synced whenever a member asks for it. |
| `WritePath.LeadBeginsGroup` | App/ios/Pods/leveldb-library/db/db_impl.cc:1201-1207 | When the front writer of the queue builds its group, the database machine can start a write of exactly the merged batches of that prefix, with the same sequence numbers; the two machines stay coupled. |
| `WritePath.FinishEndsWrite` | App/ios/Pods/leveldb-library/db/db_impl.cc:1227-1255 | When the front writer completes its group, the database machine finishes the same group, and both go on from the same sequence number. The members are told of success exactly if the group was logged and inserted, and exactly then its updates are completed. |
| `WritePath.StepKeeps` | App/ios/Pods/leveldb-library/db/db_impl.cc:1185-1256 | Every step of the queue of writers and of the database, taken together in one machine, keeps them coupled: the same group in the log section, the same sequence number, and every acknowledged group among the completed ones. |
| `WritePath.AcknowledgedWritesAreDurable` | App/ios/Pods/leveldb-library/db/db_impl.cc:1185-1256 | In every run of both: each update of a writer that was told of success is completed, and durable unless it is at risk on a torn log. |
| `WritePath.AcknowledgedWritesSurvive` | App/ios/Pods/leveldb-library/db/db_impl.cc:1185-1256 | And if no live log is torn, then after a crash at that point, inside an append or not, and any reopening a read of its key returns that update or a newer durable one. |
| `WritePath.ReadsSeeAcknowledgedWrites` | App/ios/Pods/leveldb-library/db/db_impl.cc:1185-1256 | In every run of both: a read without a snapshot that begins after a writer was told of success finds, for every key of that writer's batch, that update or a newer one. |
| `WriteQueueRun.TwoWritersOneGroup` | App/ios/Pods/leveldb-library/db/db_impl.cc:1191-1253 | A complete run of the queue in which a second writer arrives while the first makes room and both are served by one group. |
| `SkipList.SearchesAreLinearizable` | App/ios/Pods/leveldb-library/db/skiplist.h:260-281 | In every interleaving with one insertion, the result of a search is the right answer on the level-0 list as it is at the search's last load. |
| `SkipList.ContentsChange` | App/ios/Pods/leveldb-library/db/skiplist.h:355-367 | An insertion takes effect at one store, the one that links its node on level 0; every other step leaves the contents alone. |
| `SkipList.PublishKeeps` | App/ios/Pods/leveldb-library/db/skiplist.h:361-366 | After a single publishing store every level is linked, sorted and contained in the level below. |
| `SkipList.StepKeeps` | App/ios/Pods/leveldb-library/db/skiplist.h:337-368 | Every pointer store and every load of a search keeps the invariant of lists, writer and readers. |
| `SkipList.InsertCanBegin` | App/ios/Pods/leveldb-library/db/skiplist.h:337-360 | In every run, while no insertion is running, any key that is not in the list can be inserted, on any number of levels from one to twelve. |
| `SkipList.NextStoreIsPossible` | App/ios/Pods/leveldb-library/db/skiplist.h:361-366 | The writer can always make its next store. |
| `SkipList.NextLoadIsPossible` | App/ios/Pods/leveldb-library/db/skiplist.h:261-281 | A search can always make its next load: no link leads outside the arena. |
| `SkipList.SkipList.FindGreaterOrEqual` | App/ios/Pods/leveldb-library/db/skiplist.h:261-281 | The first node at or above the key, and on every level the last node before it. |
| `SkipList.SkipList.FindLessThan` | App/ios/Pods/leveldb-library/db/skiplist.h:284-303 | The last node below the key, or the head. |
| `SkipList.SkipList.FindLast` | App/ios/Pods/leveldb-library/db/skiplist.h:305-322 | The last node, or the head of an empty list. |
| `SkipList.SkipList.Insert` | App/ios/Pods/leveldb-library/db/skiplist.h:337-368 | The contents gain exactly the key; a new node of the drawn height joins exactly that many levels, which otherwise keep their members; the height of the list becomes the larger one. |
| `SkipList.SkipList.Contains` | App/ios/Pods/leveldb-library/db/skiplist.h:371-378 | True exactly for the keys of the contents. |
| `SkipList.Iterator.Seek` | App/ios/Pods/leveldb-library/db/skiplist.h:223-226 | Stands at the first key at or above the target. |
| `SkipList.Iterator.Prev` | App/ios/Pods/leveldb-library/db/skiplist.h:212-221 | Goes to the key before in sorted order, found by a search, or to the end position from the first key. |
| `SkipListRun.InsertAndFind` | App/ios/Pods/leveldb-library/db/skiplist.h:261-368 | A complete run of the concurrent list from its initial state: a key is inserted store by store and a search then finds its node. |
| `DBIter.DBIter.FindNextUserEntry` | App/ios/Pods/leveldb-library/db/db_iter.cc:168-198 | From any consistent forward scan it stops at the least key of the range that has a live value at the sequence number, with that value, or reports none. |
| `DBIter.DBIter.FindPrevUserEntry` | App/ios/Pods/leveldb-library/db/db_iter.cc:227-267 | The same backward: the greatest such key of the range. |
| `DBIter.DBIter.Next` | App/ios/Pods/leveldb-library/db/db_iter.cc:141-166 | In either direction, moves to the least visible key above the current one. |
| `DBIter.DBIter.Prev` | App/ios/Pods/leveldb-library/db/db_iter.cc:200-225 | In either direction, moves to the greatest visible key below the current one. |
| `DBIter.DBIter.Seek` | App/ios/Pods/leveldb-library/db/db_iter.cc:269-281 | Moves to the least visible key at or above the target. |
| `DBIter.DBIter.SeekToFirst` | App/ios/Pods/leveldb-library/db/db_iter.cc:283-292 | Moves to the least visible key. |
| `DBIter.DBIter.SeekToLast` | App/ios/Pods/leveldb-library/db/db_iter.cc:294-299 | Moves to the greatest visible key. |
| `DBIter.SeekAgreesWithGet` | App/ios/Pods/leveldb-library/db/db_iter.cc:269-281 | On the same entries, Seek stands on the key exactly when MemTable::Get finds a value, and both give the same one. |
| `MemTable.MemTable.Add` | App/ios/Pods/leveldb-library/db/memtable.cc:75-98 | Inserting the encoded entry into the skip list adds exactly one update to the contents, for every node height. |
| `MemTable.MemTable.Get` | App/ios/Pods/leveldb-library/db/memtable.cc:100-134 | The skip list's search finds the newest update of the key that the sequence number covers: its value, its deletion, or nothing exactly when there is none. |
| `MemTable.CompareOrders` | App/ios/Pods/leveldb-library/db/dbformat.cc:51-67 | The comparator on packed keys orders by user key, then by decreasing sequence number, then by decreasing type. |
| `MemTable.CodeOrders` | App/ios/Pods/leveldb-library/db/dbformat.cc:51-67 | The numbers that stand for packed keys in the skip list are ordered as the comparator orders the keys. |
| `MemTable.ParseRoundTrip` | App/ios/Pods/leveldb-library/db/dbformat.h:165-175 | Parsing a packed internal key gives back user key, sequence number and type. |
| `MemTable.EntryRoundTrip` | App/ios/Pods/leveldb-library/db/memtable.cc:77-96 | Key and value are read back from an encoded memtable entry. |
| `Snapshots.SnapshotList.New` | App/ios/Pods/leveldb-library/db/snapshot.h:57-70 | The list gains the new snapshot as its newest. |
| `Snapshots.SnapshotList.Delete` | App/ios/Pods/leveldb-library/db/snapshot.h:79-86 | The list loses exactly that snapshot, wherever it is. |
| `Snapshots.SnapshotList.Oldest` | App/ios/Pods/leveldb-library/db/snapshot.h:46-50 | The first snapshot of the list; none is older. |
| `Snapshots.SmallestSnapshot` | App/ios/Pods/leveldb-library/db/db_impl.cc:890-894 | The merge's horizon is the oldest live snapshot, or the last sequence number if there is none; no live snapshot is below it. |
| `LogWriter.Writer.AddRecord` | App/ios/Pods/leveldb-library/db/log_writer.cc:34-80 | It succeeds exactly if every call of the file does, apart from one that fills the end of a block; it stops at the first that fails. If no call fails, the file grows by exactly the bytes of the record laid out from where it ended; if a call fails, the writer's idea of the end of the file moves on by the record nevertheless. |
| `LogWriter.Writer.EmitPhysicalRecord` | App/ios/Pods/leveldb-library/db/log_writer.cc:82-108 | One physical record in three calls: header, payload, flush; it succeeds exactly if all three do and stops at the first that fails. The block offset moves on whether the bytes were stored or not. |
| `LogWriter.ReopenIsTransparent` | App/ios/Pods/leveldb-library/db/log_writer.cc:27-30 | Closing a log that ends with a whole record and reopening it changes nothing in the bytes of the records appended later. |
| `LogReuse.ReusedCutLosesRecord` | App/ios/Pods/leveldb-library/db/db_impl.cc:458-470 | A log that a crash has cut inside the payload of a fragment is reopened at its length: AddRecord succeeds, and as long as the file is shorter than that fragment's header says, the reader returns only the records complete before the cut. |
| `LogReuse.CutPayloadHidesWhatFollows` | App/ios/Pods/leveldb-library/db/log_reader.cc:222-233 | The reader's side of it, for any bytes after the cut. |
| `LogReuse.ReuseKeepsRecord` | App/ios/Pods/leveldb-library/db/db_impl.cc:458-470 | If the log ends with a whole fragment, or in the padding after one, the reader returns the records complete before the cut and the one appended. |
| `LogReuse.WholeFragmentsKeepWhatFollows` | App/ios/Pods/leveldb-library/db/log_reader.cc:92-145 | The reader's side of it: an unfinished record is skipped when another one begins. |
| `LogReader.Reader.ReadRecord` | App/ios/Pods/leveldb-library/db/log_reader.cc:56-174 | Returns the next record of the byte-level meaning of the file, with its offset, or false exactly at the end, and reports account for the same drops. Once it has returned false it goes on to do so and reports nothing, unless what ended it was a fragment of the type that stands for the end. |
| `LogReader.Reader.ReadPhysicalRecord` | App/ios/Pods/leveldb-library/db/log_reader.cc:189-270 | Each call returns the fragment, rejection or end of file that parsing the file at the reader's position gives. |
| `LogReader.Reader.SkipToInitialBlock` | App/ios/Pods/leveldb-library/db/log_reader.cc:33-54 | Starts at the first block that can hold a record at or after the initial offset. |
| `LogReports.EveryByteIsAccountedFor` | App/ios/Pods/leveldb-library/db/log_reader.cc:75-187 | Conservation, reading from the start of a log: the bytes met are the bytes of the records returned, plus those reported as dropped, plus those of a record that is begun and not finished at the end. |
| `LogReports.RejectedIsReported` | App/ios/Pods/leveldb-library/db/log_reader.cc:212-254 | A stretch that is rejected is reported with all the bytes to the end of its block, unless its header is the zeros of a preallocated region. |
| `LogTheorems.RecoversExactly` | App/ios/Pods/leveldb-library/db/log_reader.cc:77-171 | If the tails of arbitrary blocks are rejected, the reader returns exactly the records none of whose fragments was lost and that start at or after the initial offset, each with its start: never a spliced one. |
| `LogCrash.CutReturnsCompleteRecords` | App/ios/Pods/leveldb-library/db/log_reader.cc:189-270 | A log cut at any byte gives exactly the records that are wholly before the cut. |
| `LogCrash.CutReportsNothing` | App/ios/Pods/leveldb-library/db/log_reader.cc:193-245 | A log cut at any byte causes no corruption report. |
| `LogTorn.IntactLogReadsBack` | App/ios/Pods/leveldb-library/db/log_reader.cc:56-174 | A log none of whose writes failed gives back all its records. |
| `LogTorn.MisalignedReadsNothing` | App/ios/Pods/leveldb-library/db/log_reader.cc:212-236 | A record of all but eight bytes of a block, laid out as if m more bytes were before it, is not read back, for every m from the header size up that leaves room for two headers in the block. |
| `LogTorn.AcknowledgedButLost` | App/ios/Pods/leveldb-library/db/log_writer.cc:82-108 | The writer's side of it: after a failed append a later AddRecord succeeds and the reader returns nothing, for every block size, failed record and such second record. |
| `WriteBatch.Batch.Put` | App/ios/Pods/leveldb-library/db/write_batch.cc:98-103 | The encoded batch gains the update at the end. |
| `WriteBatch.Batch.Delete` | App/ios/Pods/leveldb-library/db/write_batch.cc:105-109 | The encoded batch gains the deletion at the end. |
| `WriteBatch.Batch.Append` | App/ios/Pods/leveldb-library/db/write_batch.cc:144-148 | The encoded batch becomes that of both lists of updates. |
| `WriteBatch.Iterate` | App/ios/Pods/leveldb-library/db/write_batch.cc:42-80 | The calls made on the handler and the status are those of the declarative scan, for arbitrary bytes. |
| `WriteBatch.ReplayRoundTrip` | App/ios/Pods/leveldb-library/db/write_batch.cc:42-80 | Iterating an encoded batch gives back its updates, sequence number and count. |
| `WriteBatch.InsertInto` | App/ios/Pods/leveldb-library/db/write_batch.cc:132-137 | The memtable gains the updates with sequence numbers counted up from the batch's own. |
| `Recovery.RecoverLogFile` | App/ios/Pods/leveldb-library/db/db_impl.cc:371-489 | Tables and kept memtable together hold, in order, exactly the replay of the log's records, and the returned sequence number is the largest seen. Success means that every table could be written, and is impossible with damage met under paranoid checks; failure needs such damage or a stretch of the replay that cannot be written. A table is written exactly when the memtable has grown too big and at the end, and the log and its memtable are reused if and only if reuse is asked for, the log is the last and no table was written. |
| `Recovery.CrashRecovery` | App/ios/Pods/leveldb-library/db/db_impl.cc:418-453 | Cutting a written log at any byte, replay inserts exactly a prefix of the logged groups with their sequence numbers, and nothing is reported. |
| `Recovery.RecoveredExactly` | App/ios/Pods/leveldb-library/db/db_impl.cc:418-453 | A group is in that prefix if and only if its last fragment ends before the cut. |
| `Recovery.RecoveredSequence` | App/ios/Pods/leveldb-library/db/db_impl.cc:431-440 | The sequence number recovered is the largest of the groups recovered, or the one the database had before, if that is larger. |
| `BlockFormat.EntryRoundTrip` | App/ios/Pods/leveldb-library/table/block.cc:54-74 | An encoded entry is decoded to its lengths, key suffix and value, on the fast path and on the slow one. |
| `Block.BlockBuilder.Add` | App/ios/Pods/leveldb-library/table/block_builder.cc:72-106 | The entry is appended; a restart is made exactly at every interval-th entry, and every other entry shares the longest common prefix with the one before. |
| `Block.BlockBuilder.Finish` | App/ios/Pods/leveldb-library/table/block_builder.cc:62-70 | The contents are the encoded entries followed by the offsets of the restarts and their number. |
| `BlockIter.NewIterator` | App/ios/Pods/leveldb-library/table/block.cc:254-264 | No iterator exactly for malformed contents or a block without restarts; otherwise one that is safe on any bytes, and correct on a finished block. |
| `BlockIter.Iter.ParseNextKey` | App/ios/Pods/leveldb-library/table/block.cc:224-251 | On a finished block it moves to the next entry with its full key and value, or to the end; on any bytes it stays within the contents. |
| `BlockIter.Iter.Seek` | App/ios/Pods/leveldb-library/table/block.cc:163-201 | Lands on the first entry whose key is at or above the target, wherever it stood before. |
| `BlockIter.Iter.Prev` | App/ios/Pods/leveldb-library/table/block.cc:142-161 | Goes to the entry before, or to the end position from the first. |
| `BlockIter.Iter.Next` | App/ios/Pods/leveldb-library/table/block.cc:137-140 | Goes to the entry after, or to the end position. |
| `BlockIter.Iter.SeekToFirst` | App/ios/Pods/leveldb-library/table/block.cc:203-206 | Goes to the first entry, or to the end position of an empty block. |
| `BlockIter.Iter.SeekToLast` | App/ios/Pods/leveldb-library/table/block.cc:208-213 | Goes to the last entry. |
| `BlockIter.ReadAll` | App/ios/Pods/leveldb-library/table/block.cc:203-206 | Scanning a finished block from SeekToFirst yields exactly the entries it was built from. |
| `BlockIter.PrevUndoesNext` | App/ios/Pods/leveldb-library/table/block.cc:142-161 | Next and then Prev give back position, key and value. |
| `FilterBlock.FilterBlockBuilder.StartBlock` | App/ios/Pods/leveldb-library/table/filter_block.cc:21-27 | The waiting keys go to the filter of their own 2KB range, ranges passed over get empty filters. |
| `FilterBlock.FilterBlockBuilder.AddKey` | App/ios/Pods/leveldb-library/table/filter_block.cc:29-33 | The key waits for the filter of the block started last. |
| `FilterBlock.FilterBlockBuilder.GenerateFilter` | App/ios/Pods/leveldb-library/table/filter_block.cc:51-75 | One more filter, of exactly the waiting keys, cut out of the flattened bytes. |
| `FilterBlock.FilterBlockBuilder.Finish` | App/ios/Pods/leveldb-library/table/filter_block.cc:35-49 | The contents are the block of all key lists, and a reader may match every key under the block it was added to. |
| `FilterBlock.AsksTheFilter` | App/ios/Pods/leveldb-library/table/filter_block.cc:90-104 | Both directions: the reader's answer is the policy's answer about the filter of the 2048 bytes the offset lies in, and yes beyond the last filter; the block ends with the logarithm of that number. |
| `FilterBlock.FinishedMatches` | App/ios/Pods/leveldb-library/table/filter_block.cc:77-104 | No false negatives, for a policy that accepts the keys a filter was built from. |
| `ThreadPool.RequestsHaveOneOwner` | App/ios/Pods/Libuv-gRPC/src/threadpool.c:57-160 | In every interleaving of submitting, working, cancelling and completing: each request is in exactly one place, runs at most once and never once cancelled, and its done callback is called exactly once when it is finished, with the cancelled status exactly if it was cancelled. |
| `ThreadPool.PoolNeverStalls` | App/ios/Pods/Libuv-gRPC/src/threadpool.c:66-138 | Whenever the mutex is free: pending slow work implies the sentinel is queued; the counters of idle and slow workers are exact; slow workers never exceed half the threads, rounded up; and if a worker sleeps and none is signalled, then no other work is queued, and slow work waits only because exactly that many workers do slow work. If all sleep both queues are empty. |
| `ThreadPool.WorkersProceed` | App/ios/Pods/Libuv-gRPC/src/threadpool.c:66-138 | A worker that holds the mutex or runs a job can always take its next step. |
| `ThreadPool.WorkersDoNotSpin` | App/ios/Pods/Libuv-gRPC/src/threadpool.c:66-110 | A worker that keeps the mutex after one turn of its loop takes a request or falls asleep on the next. |
| `ThreadPool.FirstComeFirstServed` | App/ios/Pods/Libuv-gRPC/src/threadpool.c:62-160 | In every run, of two requests of a kind the one submitted later leaves its queue only after the earlier one, unless it is cancelled. |
| `ThreadPool.BacklogIsQueue` | App/ios/Pods/Libuv-gRPC/src/threadpool.c:295-315 | The finished requests of a loop are called back in the order in which they were finished: the local queue of uv__work_done and the queue of the loop together are one queue. |
| `ThreadPool.CancelWhen` | App/ios/Pods/Libuv-gRPC/src/threadpool.c:269-293 | The test in cancel succeeds exactly for requests that wait in a queue or were cancelled before. |
| `ThreadPoolRun.RunOneRequest` | App/ios/Pods/Libuv-gRPC/src/threadpool.c:57-160 | A complete run of the pool: a request is submitted, run once by a worker and completed once without cancellation. |
| `ThreadPoolRun.TwoSlowRequests` | App/ios/Pods/Libuv-gRPC/src/threadpool.c:45-107 | A run of a pool of three threads in which two slow requests are executed at once. |
| `Queue.InsertHead` | App/ios/Pods/Libuv-gRPC/src/queue.h:83-90 | The circle has the node before the old items. |
| `Queue.InsertTail` | App/ios/Pods/Libuv-gRPC/src/queue.h:92-99 | The circle has the node after the old items. |
| `Queue.Remove` | App/ios/Pods/Libuv-gRPC/src/queue.h:101-106 | The circle has lost exactly the node at that place, whose own links stay. |
| `Queue.Add` | App/ios/Pods/Libuv-gRPC/src/queue.h:52-59 | The items of the second queue follow those of the first. |
| `Queue.Split` | App/ios/Pods/Libuv-gRPC/src/queue.h:61-70 | The items from the node on go to the new header, the others stay. |
| `Queue.Move` | App/ios/Pods/Libuv-gRPC/src/queue.h:72-81 | The new header takes all items in order and the old one is empty. |
| `Heap.PathTo` | App/ios/Pods/Libuv-gRPC/src/heap-inl.h:119-124 | The bits computed from a position are the turns that lead to it from the root. |
| `Heap.Heap.NodeSwap` | App/ios/Pods/Libuv-gRPC/src/heap-inl.h:72-104 | Exactly the links of the two nodes, their children, the sibling and the parent change, to those of the exchanged tree. |
| `Heap.Heap.Insert` | App/ios/Pods/Libuv-gRPC/src/heap-inl.h:106-148 | A complete, heap-ordered tree with consistent parent links again, whose nodes are the old ones and the new one. |
| `Heap.Heap.Remove` | App/ios/Pods/Libuv-gRPC/src/heap-inl.h:150-237 | The same without the removed node, wherever it was in the tree. |
| `Heap.Heap.MinIsLeast` | App/ios/Pods/Libuv-gRPC/src/heap-inl.h:67-69 | The root is the least node of the heap, and null exactly if the heap is empty. |
| `Heap.RootIsMin` | App/ios/Pods/Libuv-gRPC/src/heap-inl.h:67-69 | In a heap-ordered sequence no key is below the first, for every strict order. |
| `Timer.TimerOrder` | App/ios/Pods/Libuv-gRPC/src/timer.c:38-55 | The comparison of timers is a strict total order: by timeout, then by start id. |
| `Timer.Loop.TimerInit` | App/ios/Pods/Libuv-gRPC/src/timer.c:58-63 | The loop knows one more handle, inactive, without callback and repeat. |
| `Timer.Loop.TimerStart` | App/ios/Pods/Libuv-gRPC/src/timer.c:66-94 | Refused exactly without a callback or on a closing handle, changing nothing; otherwise the timer is armed once, for the loop's time plus the timeout, or 2^64 - 1 if that is less, with a fresh start id. |
| `Timer.Loop.TimerStop` | App/ios/Pods/Libuv-gRPC/src/timer.c:97-107 | The timer is not armed, the others are as before. |
| `Timer.Loop.TimerAgain` | App/ios/Pods/Libuv-gRPC/src/timer.c:110-120 | Refused exactly for a timer never started; a repeating one is due again after its repeat value, or at 2^64 - 1 if that is less; another is left alone; a closing one is only stopped. |
| `Timer.Loop.NextTimeout` | App/ios/Pods/Libuv-gRPC/src/timer.c:133-151 | The time until the least due time, 0 if it has passed, capped at 2147483647; -1 exactly if no timer is armed. |
| `Timer.Loop.RunTimers` | App/ios/Pods/Libuv-gRPC/src/timer.c:154-171 | Terminates, and the run it makes satisfies the description that RunMeans spells out, from the timers that were armed. |
| `Timer.RunMeans` | App/ios/Pods/Libuv-gRPC/src/timer.c:154-171 | Exactly the due timers fire, each once, in order of due time and start id; afterwards exactly those not due, with their old due times, and the repeating ones are armed, and these are due their repeat value after the loop's time. |
| `Punycode.ToAsciiLabel` | App/ios/Pods/Libuv-gRPC/src/idna.c:102-247 | An ASCII label is kept, any other becomes xn-- and text that section 6.2 of RFC 3492 decodes back to the label; the invalid-input error is reported exactly for undecodable bytes; the overflow error exactly if the distance to some code point, in unbounded arithmetic, exceeds 32 bits. |
| `Punycode.ShortLabelsFit` | App/ios/Pods/Libuv-gRPC/src/idna.c:174-187 | No label of up to 3855 code points has such a distance. |
| `Punycode.LongLabelTooFar` | App/ios/Pods/Libuv-gRPC/src/idna.c:174-187 | A label of 3856 code points that has one: the bound is the best possible. |
| `Punycode.EncodeLevels` | App/ios/Pods/Libuv-gRPC/src/idna.c:161-243 | The main loop succeeds exactly if all distances fit, and then the decoder turns its text into the label. |
| `Punycode.GuardIsExact` | App/ios/Pods/Libuv-gRPC/src/idna.c:174-178 | The division test reports an overflow of the increment exactly when there is one. |
| `Punycode.EncodeDelta` | App/ios/Pods/Libuv-gRPC/src/idna.c:192-218 | The digit loop writes the variable-length integer, without wrap-around. |
| `Punycode.IntegerRoundTrip` | App/ios/Pods/Libuv-gRPC/src/idna.c:192-218 | The decoder reads that integer back from any position, weight and following text. |
| `Punycode.AdaptBias` | App/ios/Pods/Libuv-gRPC/src/idna.c:220-236 | The bias adaptation equals section 6.1 of RFC 3492, and no operation of it wraps. |
| `Punycode.AdaptIs` | App/ios/Pods/Libuv-gRPC/src/idna.c:220-236 | The adapted bias without its loop: 36 for each division by 35 that it takes, and no more, to come down to 455, plus 36 times the rest over the rest plus 38. |
| `Punycode.ThresholdIs` | App/ios/Pods/Libuv-gRPC/src/idna.c:192-200 | The thresholds that the encoder and the decoder share are 1 up to the bias, 26 from 26 above it, and the difference in between. |
| `Punycode.LastPoint` | App/ios/Pods/Libuv-gRPC/src/idna.c:102-247 | The decoder that the encoder is proved against reads dn32g as the last code point. |
| `Punycode.TwoPoints` | App/ios/Pods/Libuv-gRPC/src/idna.c:102-247 | And nts55c as two ideographs, with the bias adapted after each. |
| `Punycode.JoinedDecodes` | App/ios/Pods/Libuv-gRPC/src/idna.c:156-159 | The separator is placed so that the decoder finds the ASCII part again, also if that part contains hyphens or is empty. |
| `NanopbCommon.FieldIter.Next` | App/ios/Pods/nanopb/pb_common.c:20-76 | Steps to the next field; false, back at the first, after the last. |
| `NanopbCommon.FieldIter.Find` | App/ios/Pods/nanopb/pb_common.c:78-96 | Finds a field of the tag exactly if there is one, from any start position. |
| `NanopbEncode.OStream.PbEncode` | App/ios/Pods/nanopb/pb_encode.c:528-550 | A writing stream receives exactly the encoding of the message, or fails because it is full; a sizing stream counts exactly as many bytes; both refuse a message with a byte array or an array of values above its size, at any depth. |
| `NanopbEncode.OStream.GetEncodedSize` | App/ios/Pods/nanopb/pb_encode.c:567-576 | The size is that of the encoding, for every nesting depth. |
| `NanopbEncode.OStream.EncodeSubmessage` | App/ios/Pods/nanopb/pb_encode.c:717-765 | The two passes agree: with enough room the submessage is written behind its length, and neither the size check nor the nested stream's limit can fail. |
| `NanopbEncode.OStream.EncodeArray` | App/ios/Pods/nanopb/pb_encode.c:147-236 | Packed or one by one, the elements are written in order; too many are refused. |
| `NanopbEncode.OStream.EncodeBasicField` | App/ios/Pods/nanopb/pb_encode.c:341-426 | Writes a field of each kind as the format prescribes, an absent one not at all. |
| `NanopbEncode.OStream.Write` | App/ios/Pods/nanopb/pb_encode.c:103-124 | Fails exactly if a writing stream has no room; a sizing stream only counts. |
| `NanopbEncode.OStream.EncodeVarint` | App/ios/Pods/nanopb/pb_encode.c:608-628 | The bytes are the varint of the value. |
| `NanopbEncode.OStream.EncodeSVarint` | App/ios/Pods/nanopb/pb_encode.c:630-639 | The bytes are the varint of the zigzag value. |
| `NanopbWire.EncodingOnTheWire` | App/ios/Pods/nanopb/pb_encode.c:669-707 | A reader of the wire format that knows only the numbers 0, 1, 2 and 5, eight and four bytes, and seven bits a byte splits the encoding of any message into its fields: number, wire type and content of each value written, in order. |
| `NanopbWire.NumbersOf` | App/ios/Pods/nanopb/pb_encode.c:769-827 | The theorems take every number that the C type of a field can hold, for each width. |
| `NanopbWire.PackedOnTheWire` | App/ios/Pods/nanopb/pb_encode.c:147-236 | It also reads each element of a packed array at its place. |
| `NanopbIStream.IStream.PbDecode` | App/ios/Pods/nanopb/pb_decode.c:1078-1090 | The stream decoder computes the functional decoder: same result, failing on the same bytes. |
| `NanopbIStream.IStream.PbDecodeNoInit` | App/ios/Pods/nanopb/pb_decode.c:928-1076 | The loop over keys, with the iterator's position kept across fields and the bits of seen fields in 32-bit words, computes the functional decoder. |
| `NanopbIStream.IStream.DecodeStaticField` | App/ios/Pods/nanopb/pb_decode.c:406-483 | A field of each kind is decoded into its slot as the functional decoder says, packed arrays included. |
| `NanopbIStream.IStream.DecodeVarint32Eof` | App/ios/Pods/nanopb/pb_decode.c:187-247 | For any bytes: the value, the remaining stream, the overflow error and the end-of-stream flag, with the bit position in eight bits. |
| `NanopbVarint.WrapsExactly` | App/ios/Pods/nanopb/pb_decode.c:216-239 | Varints of n continuing bytes and a last one are all read as without the wrap of the position if and only if n is at most 36. |
| `NanopbVarint.Varint32Means` | App/ios/Pods/nanopb/pb_decode.c:187-247 | What the 32-bit decoder makes of any varint of up to 37 bytes, whoever wrote it: the low 32 bits of its value, unless it has five bytes and more than 32 bits, or a byte from the sixth on is neither padding nor the sign extension of a negative number. |
| `NanopbIStream.IStream.DecodeVarint` | App/ios/Pods/nanopb/pb_decode.c:255-276 | Any bytes: 64-bit value and remaining stream, or failure. |
| `NanopbVarint.Varint64Means` | App/ios/Pods/nanopb/pb_decode.c:255-276 | The 64-bit decoder gives the low 64 bits of the value of any varint of up to ten bytes, and refuses longer ones. |
| `NanopbVarint.UnendedFails` | App/ios/Pods/nanopb/pb_decode.c:211-213 | Bytes that announce another one to the end are refused. |
| `NanopbIStream.IStream.SkipField` | App/ios/Pods/nanopb/pb_decode.c:321-331 | Skips one value of each wire type, and fails on the others; what that is in bytes is the matter of the next row. |
| `NanopbWire.SkipsByWireType` | App/ios/Pods/nanopb/pb_decode.c:321-331 | Type 0 skips the bytes up to the first below 128, type 1 eight bytes, type 2 a length and that many bytes, type 5 four bytes; every other type fails. |
| `NanopbIStream.IStream.MakeSubstream` | App/ios/Pods/nanopb/pb_decode.c:372-385 | The substream holds exactly the announced bytes and the parent what follows them. |
| `NanopbIStream.IStream.CloseSubstream` | App/ios/Pods/nanopb/pb_decode.c:387-400 | The parent goes on after the substream, whatever was left in it. |
| `NanopbIStream.SetToDefaults` | App/ios/Pods/nanopb/pb_decode.c:839-922 | Every slot gets its default, submessages recursively. |
| `NanopbIStream.CheckRequired` | App/ios/Pods/nanopb/pb_decode.c:1033-1076 | Accepts exactly if all required fields among the first 64 were seen. |
| `NanopbWire.NumbersRead` | App/ios/Pods/nanopb/pb_decode.c:1339-1423 | Any varint of up to ten bytes in a field of each integer type: unsigned and zigzag fields take all 64 bits, signed ones the low 32 (or all 64, if they are that wide), and what the field cannot hold is refused. |
| `NanopbWire.NothingPresent` | App/ios/Pods/nanopb/pb_decode.c:839-922 | Before fields are read no optional field is present, no array has an element and no member of a oneof is chosen; the others have their defaults. |
| `NanopbWire.ZeroEnds` | App/ios/Pods/nanopb/pb_decode.c:298-319 | A zero where a key is due ends the message, whatever follows. |
| `NanopbWire.DemandsFirst64` | App/ios/Pods/nanopb/pb_decode.c:1033-1076 | The test asks for every one of the first 64 required fields and for no other. |
| `NanopbWire.MissingRequiredIsRefused` | App/ios/Pods/nanopb/pb_decode.c:1033-1076 | A message without the key of one of the first 64 required fields is refused. |
| `NanopbScalars.ScalarRoundTrip` | App/ios/Pods/nanopb/pb_decode.c:1274-1564 | Each scalar type: decoding what was encoded gives the value back, whatever follows. |
| `NanopbRoundTrip.SpellingDecodes` | App/ios/Pods/nanopb/pb_decode.c:928-1076 | Every spelling of a message decodes to it: fields in the encoder's order with well-formed unknown fields inserted anywhere, inside submessages too. |
| `NanopbRoundTrip.RoundTrip` | App/ios/Pods/nanopb/pb_decode.c:1078-1090 | Decoding the encoder's bytes, if fewer than 2^32, succeeds and restores every present field, with the absent ones at their defaults. |
| `NanopbRoundTrip.MessageKept` | App/ios/Pods/nanopb/pb_encode.c:528-550 | The restored message is well formed and encodes to the very same bytes. |
| `Coding.Fixed32Bytes` | App/ios/Pods/leveldb-library/util/coding.cc:9-18 | The four bytes of a number, the lowest first. |
| `Coding.Fixed64Bytes` | App/ios/Pods/leveldb-library/util/coding.cc:20-33 | The eight bytes of a number, the lowest first. |
| `Coding.VarintInSevens` | App/ios/Pods/leveldb-library/util/coding.cc:47-84 | Seven bits a byte, the lowest first, the top bit in all bytes but the last, and no byte more than needed. |
| `KnownBytes.Batch` | App/ios/Pods/leveldb-library/db/write_batch.cc:5-14 | The bytes of a batch with one update of each type. |
| `KnownBytes.MemTableEntry` | App/ios/Pods/leveldb-library/db/memtable.cc:75-98 | The bytes of a memtable entry, with a value and without. |
| `KnownBytes.LogRecord` | App/ios/Pods/leveldb-library/db/log_writer.cc:82-108 | The bytes of a physical record, and the numbers of the other types. |
| `KnownBytes.BlockEntry` | App/ios/Pods/leveldb-library/table/block_builder.cc:92-99 | The bytes of a block entry that shares two bytes with the key before. |
| `KnownBytes.Filters` | App/ios/Pods/leveldb-library/table/filter_block.cc:35-49 | The bytes of a filter block. |
| `KnownBytes.NumberField` | App/ios/Pods/nanopb/pb_encode.c:669-707 | The bytes of an int32 field 1 with 150. |
| `KnownBytes.BytesField` | App/ios/Pods/nanopb/pb_encode.c:709-715 | The bytes of a bytes field 2. |
| `KnownBytes.FixedField` | App/ios/Pods/nanopb/pb_encode.c:641-650 | The bytes of a fixed32 field 1 with 7. |

## Left out

- StoreTheorems.CompletedWritesAreDurable: payload bytes of a torn log that happen to look like a fragment with a right checksum are not considered.
- StoreTheorems.StepKeeps: a manifest write that fails although its record is stored ends the background work for good, while in the source a merge around a flush would go on from the older version.
- LogReader.Reader.ReadRecord: skipping to the initial block does not fail, as seeking past the end of a file does not.
- LogWriter.ReopenIsTransparent: for logs that end with a whole record; LogReuse has the others.
- LogReuse.ReusedCutLosesRecord: a log cut inside a header, or grown past what the cut fragment announces, is left out: what is read then depends on values of the checksum.
- VersionFiles.Get: a table is the sorted list of its entries, without its index block, filter and caches; read errors and the statistics of seeks are left out.
- CompactionInputs.SetupOtherInputs: file sizes, the picking by score or seek and the split of outputs at grandparents are left out; any file, stretch of files or closed range of level 0 may be picked.
- Recovery.RecoverLogFile: paranoid mode ends at the first report, as in the source, but the details of its status are one error; shutting down while recovering is not modelled.
- BlockIter.NewIterator: entries whose lengths add up to 2^32 or more are excluded from finished blocks.
- NanopbIStream.IStream.PbDecode: when decoding fails, the partly written message is not described; streams are buffers, not callbacks.
- NanopbRoundTrip.RoundTrip: messages of 2^32 bytes or more are excluded, as their lengths do not fit the format's 32 bits.
- Timer.Loop.RunTimers: callbacks do not touch timers; 2^64 - 1 as the loop's time and a wrap of the start ids are excluded.
- Heap.Heap.Insert: at most 2^32 - 1 nodes.
- Punycode.ToAsciiLabel: works on decoded code points; the UTF-8 reader, the splitting of a name into labels and a full output buffer are not modelled.
- ThreadPool.RequestsHaveOneOwner: creation and exit of threads, the exit message and fork are not modelled; a callback that submits or cancels is a step of its own.
- SkipList.SearchesAreLinearizable: C++ memory orders are not modelled.
- A null batch does not always force a memtable switch: its writer may join another group.
- Malformed internal keys, in merges and in the iterator.
- Freeing of memtables, versions and snapshots by reference counts.
- File systems, table and block caches, logging, statistics, options and properties.
- TableBuilder, two-level and merging iterators, version edits and their builder, and file names.
- FindShortestSeparator, FindShortSuccessor and the read sampling of DBIter.
- nanopb callbacks, extensions, allocated fields, fixed-count arrays, proto3 defaults, struct offsets and delimited or null-terminated entry points.
- uv_timer_close, uv_timer_set_repeat, and everything else of libuv.
- The Flutter runners, UI code and all other libraries of the app.
