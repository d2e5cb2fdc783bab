# A model of the LevelDB storage engine and of nanopb

The application stores its data with two vendored libraries: LevelDB
(`iosApp/Pods/leveldb-library`), a log-structured key-value store, and nanopb
(`iosApp/Pods/nanopb`), a Protocol Buffers encoder and decoder.  This project models
both and proves what they are for.

The specification of the store is small: a history of operations, each with a user key,
a sequence number, a kind (value or deletion) and a value.  A read of key `k` at
snapshot `s` answers with the newest operation on `k` numbered at most `s`, or nothing
if that is a deletion or there is none (`Spec.Answers`).  Everything else is shown to
agree with it.

| part | modules |
|---|---|
| keys and the specification | `Keys`, `Spec` |
| versions and point reads | `Versions` |
| compaction: inputs, the merge loop, installing the result | `Inputs`, `Selection`, `CompactionLoop`, `Install`, `Flush`, `Exactness` |
| the engine as a state machine, over all runs | `Engine`, `EngineSteps`, `EngineProof`, `EngineDurable`, `EngineCrash`, `EngineRecovery`, `EngineMain`, `Work`, `Snapshots` |
| crashes and recovery | `Durability`, `RecoverLogs`, `Manifests` |
| runs step by step, and those that reach the failing cases | `Runs`, `Reachable` |
| group commit, and the engine it drives | `GroupCommit`, `GroupRefinement`, `WriteBatches` |
| memtable: a skip list with lock-free readers | `SkipList` |
| iterators, and what they show in every run | `Cursors`, `DbIter`, `Merger`, `Iterating` |
| files in bytes: log, block, table, filter, manifest | `Coding`, `LogFormat`, `Block`, `Separators`, `Bloom`, `FilterBlock`, `Table`, `TableFile`, `VersionEdits`, `Replay` |
| the block and table cache | `Lru` |
| nanopb | `Nanopb`, `NanopbEncode`, `NanopbReplay`, `NanopbDecode`, `NanopbRoundTrip` |

In the engine a user key is a position in the comparator's total order, a real number:
the engine only compares keys, and `Keys.ByteRankEmbeds` places byte strings among the
reals without changing their order.  The modules about file formats work on bytes.  Each
section of the code that holds the mutex is one step of the state machine; the places
where the code unlocks it (log append, memtable insertion, table building, the
compaction loop, manifest writes, file removal) lie between steps, where steps of other
threads may come in.

## Where the code does not do what it is for

Each of these has a lemma with a concrete case and a lemma with the exact condition.

- Compaction drops a deletion while an older value of the same key stays behind, and the
  key reads as that value again.  It happens because `SetupOtherInputs` gives boundary
  files to the input level only.  Case: `Reachable.PickFails`, a run of the engine, made of
  the code's own choices, after which `PickCompaction` makes that one.  Reads are preserved
  if and only if no dropped deletion is continued, in a file of the output level that was
  left out, by a value that a live snapshot would then see: `Exactness.CompactionExact`, and
  with crashes taken into account `Exactness.GuardExact`.
- A manual compaction may choose files with a gap between them; a memtable flushed into
  the gap meanwhile makes two files of a sorted level overlap.  Case:
  `Reachable.CompactRangeFails`, again after a run.  All flushes, however many, stay clear
  of the job if and only if no key that may be written is an opening: between the inputs,
  outside every file down to the output level, and with little enough below it for a flush
  to come that deep: `Exactness.FlushExact`.  `PickCompaction` never leaves a gap:
  `Selection.PickCompaction`.
- With `smallest_snapshot` at `kMaxSequenceNumber` the merge loop drops every entry, since
  it marks "no entry of this key yet" with that number.  `CompactionLoop.Compact` states
  the outcome on both sides of the bound.
- A crash of the machine can take a write and leave a later one, even one acknowledged
  with `sync`: switching memtables does not sync the old log.  Case:
  `Durability.LaterSurvivesEarlier`.  What is left is a prefix of the commit order,
  whatever the crash takes, if and only if the immutable memtable's log is synced or the
  current log is empty, and no needed log has two records behind a failed append:
  `Durability.AlwaysPrefixExact`.
- A write acknowledged with `sync` can be lost: after an append that failed half-way the
  log's writer goes on behind the fragment it left, and the reader may not get past it.
  Cases: `Durability.TornLosesSynced`, and in bytes `LogFormat.ReadBehindTear`.  It can be
  lost if and only if its log is still needed and an append to that log had failed before
  it: `Durability.SyncedLostExact`.  All others survive everything:
  `Durability.SyncedSurvive`.
- When a file number is deleted and used again, replaying a manifest in one go brings the
  old file back.  Case: `Replay.ReusedNumberReturns`.  Replay agrees with installing the
  edits one by one if and only if no edit removes a file, for good, whose number the last
  edit to concern it adds: `Replay.ReplayExact`.  In every run of the engine it does: `Manifests.RunRecords`.
- nanopb encodes a text that fills its character array, but cannot decode it.  Case:
  `NanopbRoundTrip.UnterminatedText`.  A message survives encoding and decoding if and
  only if it fits the buffer and every array, byte array and text in it is within its
  field, the terminating NUL included: `NanopbRoundTrip.RoundTrip`.

Two comments in the code say something else than the code does, and the model follows
the code: `VersionEdit::Clear` does not clear `compact_pointers_`, so a decoder into an
object used before appends to them (`db/version_edit.cc:26-39`); and while a `DBIter`
moves backwards its inner iterator stands before all entries of the current key only
when there is no newer, invisible entry in between (`db/db_iter.cc:41-47`).

## Model

| member | source | states |
|---|---|---|
| `EngineMain.RunInv` | iosApp/Pods/leveldb-library/db/db_impl.cc:697-1009 | In every run of the engine (writes that sync, or fail and tear their log, memtable switches, flushes, compactions, moves, installs, file removal, crashes that lose unsynced or torn-off records, recoveries cut short, in any interleaving) the invariant holds: the store and the history answer alike at every live snapshot, now and as the manifest would have it. |
| `EngineMain.GetInRun` | iosApp/Pods/leveldb-library/db/db_impl.cc:1110-1155 | A Get of any key, begun at any point of any run, answers with the newest operation at or below its snapshot in the order of commits, whatever flushes, compactions and removals happened since it began. |
| `EngineMain.DbGet` | iosApp/Pods/leveldb-library/db/db_impl.cc:1121-1146 | Memtable, then immutable memtable, then version give the read of their union; files are consulted only if both memtables miss, and the first of several files read is the one charged with a seek. |
| `EngineMain.SnapshotStable` | iosApp/Pods/leveldb-library/db/db_impl.cc:1176-1185 | Between crashes, what a snapshot reads of any key never changes. |
| `Durability.CrashKeeps` | iosApp/Pods/leveldb-library/db/db_impl.cc:289-378 | A crash at any point of any run that cuts each log anywhere after its synced part, and takes any records behind a failed append: what was flushed or synced stays, of every group all or nothing stays, nothing else appears, and everything written stays if no log loses a record. |
| `Durability.SyncedSurvive` | iosApp/Pods/leveldb-library/include/leveldb/options.h:164-182 | An operation acknowledged with sync, in a log no append to which had failed, is in the history of every state of every run that follows, through any number of crashes and recoveries. |
| `Durability.SyncedOnCommit` | iosApp/Pods/leveldb-library/db/db_impl.cc:1225-1242 | A write with sync, once acknowledged, has its whole group among the operations committed with a sync, and among those that cannot be lost unless an append to its log had failed. |
| `Durability.SyncedLostExact` | iosApp/Pods/leveldb-library/db/log_writer.cc:82-108 | An operation acknowledged with sync can be lost to a crash if and only if it is still in a memtable and lies in its log behind a failed append. |
| `Durability.TornLosesSynced` | iosApp/Pods/leveldb-library/db/log_writer.cc:82-108 | A run in which an append fails and a later write, acknowledged with sync, is lost. |
| `Durability.PromiseKept` | iosApp/Pods/leveldb-library/db/db_impl.cc:1225-1242 | In a run without a failed append everything acknowledged with sync is among the operations that cannot be lost. |
| `Durability.AlwaysPrefixExact` | iosApp/Pods/leveldb-library/db/db_impl.cc:1355-1376 | Whatever a crash takes, what is left is a prefix of the commit order, if and only if no needed log has two records with operations behind a failed append, and the log of the immutable memtable is synced as far as it has operations or the current log has none. |
| `Durability.PrefixExact` | iosApp/Pods/leveldb-library/db/db_impl.cc:1355-1376 | What one crash leaves is a prefix of the commit order if and only if what it leaves of each needed log is a prefix of it, and it spares the immutable memtable or leaves nothing of the current log. |
| `Durability.LaterSurvivesEarlier` | iosApp/Pods/leveldb-library/db/db_impl.cc:1355-1376 | A run in which a write is lost and a later write, acknowledged with sync, is not. |
| `Durability.RecoveredAnswers` | iosApp/Pods/leveldb-library/db/db_impl.cc:1478-1518 | When recovery ends, however often it was cut short, nothing the last crash left is lost, and the tables alone, read at the recovered last sequence number, answer as that history does. |
| `EngineCrash.CrashInv` | iosApp/Pods/leveldb-library/db/db_impl.cc:289-378 | A crash in any state that satisfies the invariant, with any cut of the logs that respects syncs and failed appends, leads to a state that satisfies it. |
| `EngineRecovery.RecoveredInv` | iosApp/Pods/leveldb-library/db/db_impl.cc:1478-1518 | The manifest record that ends recovery leads to a state that satisfies the invariant. |
| `EngineMain.NothingNeededIsRemoved` | iosApp/Pods/leveldb-library/db/db_impl.cc:222-287 | In every reachable state the tables of the current version, of the manifest and of every version a reader holds are on disk unchanged, and so are the logs of both memtables while the manifest needs them. |
| `EngineMain.TreeInRun` | iosApp/Pods/leveldb-library/db/version_set.cc:777-860 | In every reachable state levels from 1 on are sorted and disjoint, and for each user key what is searched earlier holds only later operations. |
| `RecoverLogs.Recover` | iosApp/Pods/leveldb-library/db/db_impl.cc:289-378 | After a crash at any point of any run Recover finds every table the manifest names, and the level-0 tables, log number and sequence number it arrives at are those of a run that ends recovery and keeps everything the crash left. |
| `RecoverLogs.RecoverLogFile` | iosApp/Pods/leveldb-library/db/db_impl.cc:380-498 | Reading a log into level-0 tables adds exactly what the log holds, newer tables under larger numbers, and takes in the largest sequence number found. |
| `RecoverLogs.WriteLevel0Table` | iosApp/Pods/leveldb-library/db/db_impl.cc:500-542 | The table of a memtable holds its entries in order under the given number; an empty memtable leaves none. |
| `Work.StartCompaction` | iosApp/Pods/leveldb-library/db/version_set.cc:1247-1299 | What PickCompaction chooses in a reachable state has no gaps, and is a compaction the engine may start if and only if no deleted value comes back under what no crash can take of the memtables; none does when no file left out of the output level continues one that was chosen. |
| `Work.DoCompactionWork` | iosApp/Pods/leveldb-library/db/db_impl.cc:887-1047 | The loop over the merged inputs, with the deeper levels of the input version, writes exactly the entries that are not dropped, in disjoint ordered tables under consecutive numbers. |
| `Work.FlushMemTable` | iosApp/Pods/leveldb-library/db/db_impl.cc:500-575 | The table built from the immutable memtable and the level picked for it are those of the two flush steps of the engine, if and only if the table stays clear of a running compaction; it does if that has no gaps. |
| `Work.TrivialMoveIsStep` | iosApp/Pods/leveldb-library/db/db_impl.cc:727-737 | A trivial move moves one file one level down, a step of the engine. |
| `Snapshots.SnapshotList.Oldest` | iosApp/Pods/leveldb-library/db/snapshot.h:47-50 | The first element of the circular list has the smallest sequence number of all live snapshots. |
| `Snapshots.SnapshotList.New` | iosApp/Pods/leveldb-library/db/snapshot.h:57-71 | Appending keeps the list in rising order and adds exactly the new number. |
| `Snapshots.SnapshotList.Delete` | iosApp/Pods/leveldb-library/db/snapshot.h:79-86 | Unlinking removes exactly one snapshot. |
| `Snapshots.SmallestSnapshot` | iosApp/Pods/leveldb-library/db/db_impl.cc:899-903 | The floor a compaction works with is the oldest live snapshot, or the last sequence number if there is none. |
| `Exactness.CompactionExact` | iosApp/Pods/leveldb-library/db/db_impl.cc:916-1009 | Installing a compaction preserves every read at every live snapshot if and only if no dropped deletion is continued by a value in the output level. |
| `Exactness.DeletedValueReturns` | iosApp/Pods/leveldb-library/db/version_set.cc:1380-1439 | A concrete tree where compacting a level makes a deleted key read as its old value again. |
| `Exactness.FlushExact` | iosApp/Pods/leveldb-library/db/version_set.cc:470-495 | Over any sequence of flushes in mid-compaction, of tables on any given set of user keys, each at the level PickLevelForMemTableOutput picks: all of them stay clear of the job if and only if none of these keys lies between the inputs, outside every file down to the output level, with files below it that are small enough for a flush to come that deep. |
| `Exactness.DropsUnseenExact` | iosApp/Pods/leveldb-library/db/db_impl.cc:916-1009 | No live snapshot that reads the version under some later operations notices what a job drops, if and only if no deleted value comes back. |
| `Exactness.GuardExact` | iosApp/Pods/leveldb-library/db/db_impl.cc:916-1009 | What a job drops goes unnoticed whatever a crash leaves of the memtables, if and only if no deleted value comes back under the part of them that no crash can take. |
| `Reachable.PickFails` | iosApp/Pods/leveldb-library/db/version_set.cc:1247-1299 | After a run of five writes, a snapshot, three flushes, a trivial move and a compaction of two files, in which every level, job and move is the one the code chooses, PickCompaction on level 2 chooses a job, not a trivial move, that brings a deleted value back. |
| `Reachable.FailingCaseIsReached` | iosApp/Pods/leveldb-library/db/version_set.cc:1380-1439 | That run: each flush goes to the level picked for it, each compaction is the only complete selection of its level, a job is moved exactly if it is a trivial move; and in its last state the history and the store reading as deleted what the one possible job of level 2 would bring back. |
| `Reachable.CompactRangeFails` | iosApp/Pods/leveldb-library/db/version_set.cc:1441-1472 | After a run of five writes and four flushes, CompactRange chooses a job with a gap; PickLevelForMemTableOutput puts the table flushed meanwhile into that gap of the output level, and installing the compaction then breaks the tree invariant. |
| `Install.InstallKeepsTree` | iosApp/Pods/leveldb-library/db/db_impl.cc:869-885 | Replacing the inputs by the outputs keeps levels disjoint and recency in search order. |
| `Install.MoveKeepsTree` | iosApp/Pods/leveldb-library/db/db_impl.cc:727-737 | Moving one file a level down keeps the tree and its contents. |
| `Install.CompleteIsChosen` | iosApp/Pods/leveldb-library/db/version_set.cc:1380-1439 | A complete selection leaves nothing older of its level behind and takes all it meets in the next level. |
| `Flush.FlushMissesJob` | iosApp/Pods/leveldb-library/db/db_impl.cc:918-928 | A table flushed while a compaction without gaps runs, to its output level or deeper, lies aside of everything the compaction reads and shares no user key with it. |
| `Flush.FlushKeepsTree` | iosApp/Pods/leveldb-library/db/db_impl.cc:544-575 | Adding a flushed table where PickLevelForMemTableOutput puts it keeps the tree. |
| `Flush.PickedPlaceOk` | iosApp/Pods/leveldb-library/db/version_set.cc:470-495 | The level picked for a flush is one the table can reach without passing or meeting an overlapping file. |
| `Flush.PickedExact` | iosApp/Pods/leveldb-library/db/version_set.cc:470-495 | The level PickLevelForMemTableOutput returns for the vectors of a version is the one described on the version as a set, and only that. |
| `Flush.LoopOutputsOk` | iosApp/Pods/leveldb-library/db/db_impl.cc:916-1009 | The tables the loop wrote hold the inputs minus what is dropped, pairwise apart. |
| `CompactionLoop.Compact` | iosApp/Pods/leveldb-library/db/db_impl.cc:916-1009 | An entry survives exactly when no newer entry of its key hides it at the floor and it is not a deletion below which no deeper file covers the key; at a floor of kMaxSequenceNumber nothing survives. |
| `CompactionLoop.PreviousDecides` | iosApp/Pods/leveldb-library/db/db_impl.cc:940-969 | Looking at the previous entry alone decides whether any newer entry at or below the floor hides this one. |
| `CompactionLoop.BaseLevelCursor.IsBaseLevelForKey` | iosApp/Pods/leveldb-library/db/version_set.cc:1510-1529 | For keys asked in ascending order the forward-only pointers say exactly whether a deeper file covers the key. |
| `Spec.LayerReads` | iosApp/Pods/leveldb-library/db/db_impl.cc:1121-1146 | Two stores that answer alike under some later operations still do so under more of them. |
| `Inputs.GetOverlappingInputs` | iosApp/Pods/leveldb-library/db/version_set.cc:498-538 | On level 0 the search, restarts included, ends with the files meeting the least range that no file straddles; elsewhere with those meeting the range asked for. |
| `Inputs.AddBoundaryInputs` | iosApp/Pods/leveldb-library/db/version_set.cc:1355-1378 | Ends with the files given and the chain of least boundary files, and no file of the level continues its last user key. |
| `Inputs.FindSmallestBoundaryFile` | iosApp/Pods/leveldb-library/db/version_set.cc:1324-1344 | The boundary file with the smallest first key, or none if there is no boundary file. |
| `Inputs.FindLargestKey` | iosApp/Pods/leveldb-library/db/version_set.cc:1303-1318 | The largest key of the files. |
| `Inputs.GetRange` | iosApp/Pods/leveldb-library/db/version_set.cc:1182-1204 | The user-key hull of the files. |
| `Selection.SetupOtherInputs` | iosApp/Pods/leveldb-library/db/version_set.cc:1380-1439 | The chosen files with their boundary files and all they meet in the next level, or the wider choice exactly when it has more files, is not too large and meets no more of the next level; with the grandparents and the next compact pointer. |
| `Selection.PickCompaction` | iosApp/Pods/leveldb-library/db/version_set.cc:1247-1299 | Starts from the file the reason names (the first past the compact pointer, wrapping around, or the charged one) and settles on inputs that leave no gap in the range they span. |
| `Selection.CompactRange` | iosApp/Pods/leveldb-library/db/version_set.cc:1441-1472 | Nothing exactly when no file meets the range; else a complete selection holding all files that meet it on level 0, and a prefix cut where its size reaches the limit elsewhere. |
| `Selection.PickLevelForMemTableOutput` | iosApp/Pods/leveldb-library/db/version_set.cc:470-495 | The deepest level, up to the limit, reached by steps that each meet no file and not too many bytes below; level 0 if the table meets a file there. |
| `Selection.SomeFileOverlapsRange` | iosApp/Pods/leveldb-library/db/version_set.cc:121-161 | One binary search on a sorted level, or a scan of level 0, decides exactly whether a file meets the range. |
| `Selection.SameCountSameFiles` | iosApp/Pods/leveldb-library/db/version_set.cc:1405-1413 | A wider range that meets no more files of a level meets the same files. |
| `Selection.LeftBehindIsNewer` | iosApp/Pods/leveldb-library/db/version_set.cc:1346-1354 | After boundary files are added, what stays behind in the input level holds only later operations on shared keys. |
| `Versions.VersionGet` | iosApp/Pods/leveldb-library/db/version_set.cc:281-400 | Newest first through level 0, then one file per deeper level, reports the newest visible operation of the whole version; no file after the first hit is read, and the first file is charged exactly when a second was read. |
| `Versions.FindFile` | iosApp/Pods/leveldb-library/db/version_set.cc:87-105 | The first file whose largest key is not before the key. |
| `Versions.OnlyOneFile` | iosApp/Pods/leveldb-library/db/version_set.cc:303-321 | In a sorted level only the file found by binary search can hold the newest visible entry, even if neighbours share a user key. |
| `Versions.ChargedIsMovable` | iosApp/Pods/leveldb-library/db/version_set.cc:341-352 | A file charged with a seek is in the version and not in the last level. |
| `Versions.RunGet` | iosApp/Pods/leveldb-library/db/memtable.cc:101-137 | One seek in a sorted run reports the newest visible entry of the key. |
| `Spec.OneAnswer` | iosApp/Pods/leveldb-library/db/dbformat.h:61-67 | Every read of every store with distinct sequence numbers has exactly one answer. |
| `Keys.ByteRankEmbeds` | iosApp/Pods/leveldb-library/util/comparator.cc:27-29 | Positions of byte strings among the reals compare as the strings do, and differ if the strings do. |
| `GroupCommit.AcknowledgedIsApplied` | iosApp/Pods/leveldb-library/db/db_impl.cc:1195-1266 | Over every interleaving of writers, an acknowledged batch is in the memtable as a whole, once, after exactly the successful batches that arrived before it. |
| `GroupCommit.NothingElseIsApplied` | iosApp/Pods/leveldb-library/db/db_impl.cc:1195-1266 | With no insertion under way the memtable holds the successful batches in arrival order and nothing else. |
| `GroupCommit.NumbersAreDisjoint` | iosApp/Pods/leveldb-library/db/db_impl.cc:1214-1249 | Batches get consecutive sequence numbers; later arrivals get larger ones, none is used twice. |
| `GroupCommit.SnapshotsSeeWholeBatches` | iosApp/Pods/leveldb-library/db/db_impl.cc:1176-1179 | A snapshot taken at any time sees each batch whole or not at all. |
| `GroupCommit.AcknowledgedIsLogged` | iosApp/Pods/leveldb-library/db/db_impl.cc:1225-1242 | An acknowledged batch is in the log in one record, which was synced if the writer asked for it. |
| `GroupCommit.OneLeader` | iosApp/Pods/leveldb-library/db/db_impl.cc:1202-1212 | At most one writer is ever past the queue and not yet back. |
| `GroupRefinement.EveryGroupRun` | iosApp/Pods/leveldb-library/db/db_impl.cc:1195-1266 | Every run of the writer queue, failing appends and syncs included, is step by step a run of the engine with the same operations committed; without a failing append in the one there is none in the other. |
| `GroupRefinement.Simulate` | iosApp/Pods/leveldb-library/db/db_impl.cc:1214-1249 | One step of the queue is one write step of the engine or none. |
| `GroupRefinement.OthersKeep` | iosApp/Pods/leveldb-library/db/db_impl.cc:1217-1222 | Whatever else the engine does between crashes, the queue and the engine stay matched. |
| `GroupRefinement.AcknowledgedIsCommitted` | iosApp/Pods/leveldb-library/db/db_impl.cc:1195-1266 | The batch of a writer that was told OK is in the history as a whole, and among the operations committed with a sync if it asked for that. |
| `GroupRefinement.AcknowledgedSurvives` | iosApp/Pods/leveldb-library/include/leveldb/options.h:164-182 | In a run without a failed append, the batch of a writer that was told OK with sync is in the history of every state that follows, whatever crashes. |
| `GroupCommit.BuildBatchGroup` | iosApp/Pods/leveldb-library/db/db_impl.cc:1270-1316 | The group is the longest run of queued writers allowed by size and sync, and its operations are theirs in queue order. |
| `GroupCommit.GroupUnique` | iosApp/Pods/leveldb-library/db/db_impl.cc:1270-1316 | The group is determined by the queue, and no sync write joins a leader that does not sync. |
| `WriteBatches.WriteBatch.Iterate` | iosApp/Pods/leveldb-library/db/write_batch.cc:42-81 | On any bytes: the operations handed over are those readable before the first bad record, and the status is OK exactly when all records are readable and their number is the one announced; a batch that was built reads back as built. |
| `WriteBatches.WriteBatch.Add` | iosApp/Pods/leveldb-library/db/write_batch.cc:99-111 | One more operation at the end, header count included. |
| `WriteBatches.WriteBatch.Append` | iosApp/Pods/leveldb-library/db/write_batch.cc:144-148 | The operations of the other batch follow one's own. |
| `WriteBatches.WriteBatch.InsertInto` | iosApp/Pods/leveldb-library/db/write_batch.cc:132-137 | Operations get consecutive sequence numbers from the header's on. |
| `SkipList.ReaderFinds` | iosApp/Pods/leveldb-library/db/skiplist.h:260-302 | A search interleaved with insertion load by load ends at the right node of the list as it was at its last load on level 0, which holds everything inserted before the search began. |
| `SkipList.LevelsInRun` | iosApp/Pods/leveldb-library/db/skiplist.h:337-368 | After every single store of Insert each level is a sorted list and a sublist of level 0. |
| `SkipList.ReaderProceeds` | iosApp/Pods/leveldb-library/db/skiplist.h:153-180 | A reader never meets a pointer that is not set. |
| `SkipList.IteratorNext` | iosApp/Pods/leveldb-library/db/skiplist.h:207-210 | One load moves an iterator to the node that follows in the list of that moment. |
| `SkipList.List.Insert` | iosApp/Pods/leveldb-library/db/skiplist.h:337-368 | Insert adds exactly the key, and each of its stores is one the concurrent machine allows. |
| `SkipList.List.FindGreaterOrEqual` | iosApp/Pods/leveldb-library/db/skiplist.h:260-282 | The first node at or after the key, and the last before it on every level in use. |
| `SkipList.List.FindLessThan` | iosApp/Pods/leveldb-library/db/skiplist.h:284-302 | The last node before the key. |
| `SkipList.List.FindLast` | iosApp/Pods/leveldb-library/db/skiplist.h:304-322 | The last node. |
| `SkipList.List.Contains` | iosApp/Pods/leveldb-library/db/skiplist.h:371-378 | Whether the key was inserted. |
| `DbIter.Drive` | iosApp/Pods/leveldb-library/db/db_iter.cc:141-308 | Any sequence of Seek, SeekToFirst, SeekToLast, Next and Prev, direction changes included, moves the iterator as a cursor over the sorted map of visible keys. |
| `DbIter.ViewIsRead` | iosApp/Pods/leveldb-library/db/db_iter.cc:141-308 | The map iterated over pairs a key with a value exactly when a read at the sequence number answers that value. |
| `DbIter.ViewAscends` | iosApp/Pods/leveldb-library/db/db_iter.cc:141-308 | Its keys ascend strictly. |
| `DbIter.Iterator.FindNextUserEntry` | iosApp/Pods/leveldb-library/db/db_iter.cc:177-207 | Stops at the first shown entry past the key to skip, or past the end. |
| `DbIter.Iterator.FindPrevUserEntry` | iosApp/Pods/leveldb-library/db/db_iter.cc:236-276 | Stops before the last shown entry at or before the position, with its key and value saved. |
| `Iterating.IterateInRun` | iosApp/Pods/leveldb-library/db/db_impl.cc:1157-1167 | In every run an iterator, put together from memtables and version and moved by any calls, is a cursor over strictly ascending keys, and shows a key with a value exactly when the history answers that value at its snapshot. |
| `Iterating.ShowsHistory` | iosApp/Pods/leveldb-library/db/db_impl.cc:1157-1167 | The same for any sorted run of what a reader in a run of the engine refers to. |
| `Iterating.ShowsTheSame` | iosApp/Pods/leveldb-library/db/db_impl.cc:1157-1167 | While an iterator lives, what it is over does not change, whatever is written, flushed, compacted and removed. |
| `Iterating.NewInternalIterator` | iosApp/Pods/leveldb-library/db/db_impl.cc:1072-1097 | Its children are sorted, no operation is in two of them, and together they hold what memtables and version hold. |
| `Iterating.AddIterators` | iosApp/Pods/leveldb-library/db/version_set.cc:229-247 | Level 0 gives a run per table and every other level one sorted run; each table is in exactly one. |
| `Iterating.WalkRuns` | iosApp/Pods/leveldb-library/table/merger.cc:31-109 | After any calls a merging iterator over such children stands on the operation an iterator over their sorted union would stand on. |
| `Merger.Drive` | iosApp/Pods/leveldb-library/table/merger.cc:31-109 | Any sequence of Seek, SeekToFirst, SeekToLast, Next and Prev, direction changes included, moves the merging iterator as a cursor over the sorted union of its children. |
| `Merger.MergeAllOk` | iosApp/Pods/leveldb-library/table/merger.cc:179-189 | The merge of sorted, pairwise disjoint children is the sorted union of their items. |
| `Merger.MergingIterator.Next` | iosApp/Pods/leveldb-library/table/merger.cc:55-79 | Moves one place forward in the merged sequence, also after a move backwards. |
| `Merger.MergingIterator.Prev` | iosApp/Pods/leveldb-library/table/merger.cc:81-109 | Moves one place back, also after a move forwards. |
| `Merger.MergingIterator.Seek` | iosApp/Pods/leveldb-library/table/merger.cc:47-53 | Stands at the first item of the merged sequence at or after the target. |
| `Merger.SmallestIsNext` | iosApp/Pods/leveldb-library/table/merger.cc:148-161 | With every child at its first item right of a cut, the smallest of them is the next item of the union. |
| `LogFormat.RoundTrip` | iosApp/Pods/leveldb-library/db/log_reader.cc:56-174 | Of a log file cut at any byte, exactly the records complete at that length are read, with no corruption reported. |
| `LogFormat.Writer.AddRecord` | iosApp/Pods/leveldb-library/db/log_writer.cc:34-80 | Appends the fragments of one record, never across a 32 KB block border, with the trailer padded. |
| `LogFormat.Reader.ReadRecord` | iosApp/Pods/leveldb-library/db/log_reader.cc:56-174 | Returns the next whole record, or the end of the file. |
| `LogFormat.ReadAll` | iosApp/Pods/leveldb-library/db/log_reader.cc:189-271 | Reading to the end gives the written records that are whole, in order; also when a torn end follows them. |
| `LogFormat.ReadBehindTear` | iosApp/Pods/leveldb-library/db/log_reader.cc:189-271 | When a failed append left a header and part of its data, and less was written behind it than is missing, then nothing behind it is read, synced or not, and no corruption is reported. |
| `Coding.VarintRoundTrip` | iosApp/Pods/leveldb-library/util/coding.cc:21-143 | A varint is read back whatever follows it. |
| `Coding.Varint32RoundTrip` | iosApp/Pods/leveldb-library/util/coding.cc:86-114 | A 32-bit varint is read back whatever follows it; bits beyond 32 are dropped. |
| `Coding.Varint64RoundTrip` | iosApp/Pods/leveldb-library/util/coding.cc:116-143 | A 64-bit varint is read back whatever follows it; bits beyond 64 are dropped. |
| `Coding.UnmaskMask` | iosApp/Pods/leveldb-library/util/crc32c.h:29-38 | Unmasking undoes masking. |
| `Block.RoundTrip` | iosApp/Pods/leveldb-library/table/block.cc:138-162 | For any increasing keys and any restart interval, a finished block read forwards gives the pairs put in, and backwards their reverse. |
| `Block.Iter.Seek` | iosApp/Pods/leveldb-library/table/block.cc:164-202 | Stands at the first entry at or after the target. |
| `Block.Iter.Prev` | iosApp/Pods/leveldb-library/table/block.cc:143-162 | Moves to the entry before. |
| `Block.BlockBuilder.Add` | iosApp/Pods/leveldb-library/table/block_builder.cc:71-105 | Appends exactly the pair, prefix-compressed against the last key or at a restart point. |
| `Block.DecodeEncoded` | iosApp/Pods/leveldb-library/table/block.cc:55-75 | An encoded entry is taken apart into its lengths, the rest of its key and its value. |
| `Separators.ShortestSeparator` | iosApp/Pods/leveldb-library/util/comparator.cc:31-54 | Changes the key exactly when the first difference leaves room, and then to a shortest string strictly between the two. |
| `Separators.ShortSuccessor` | iosApp/Pods/leveldb-library/util/comparator.cc:56-66 | A shortest string after the key; a key of 0xff bytes only is kept. |
| `Separators.InternalSeparator` | iosApp/Pods/leveldb-library/db/dbformat.cc:65-82 | Replaces the user key by a shortest one between, with the earliest trailer, exactly when that makes it shorter. |
| `Separators.InternalSuccessor` | iosApp/Pods/leveldb-library/db/dbformat.cc:84-97 | The same for a key with no successor. |
| `Bloom.CreateFilter` | iosApp/Pods/leveldb-library/util/bloom.cc:28-55 | Sets exactly the bits of the keys, so every key added is held. |
| `Bloom.KeyMayMatch` | iosApp/Pods/leveldb-library/util/bloom.cc:57-80 | Rejects a key exactly when one of its bits is not set; unknown encodings match everything. |
| `FilterBlock.KeyMayMatch` | iosApp/Pods/leveldb-library/table/filter_block.cc:77-104 | Says what the filter of the block's 2 KB range says; beyond all filters, or in a damaged block, rules nothing out. |
| `FilterBlock.FilterBlockBuilder.Finish` | iosApp/Pods/leveldb-library/table/filter_block.cc:35-49 | The finished block holds, range by range, a filter that holds every key added there. |
| `FilterBlock.FilterBlockBuilder.StartBlock` | iosApp/Pods/leveldb-library/table/filter_block.cc:21-27 | Closes exactly the filters of the ranges before the block. |
| `Table.InternalGet` | iosApp/Pods/leveldb-library/table/table.cc:214-242 | Opening at most one data block, gives the table's first entry at or after the key; nothing only if no entry from the key on has its user key. |
| `Table.FindsNewest` | iosApp/Pods/leveldb-library/table/table.cc:214-242 | If the table holds an entry of the user key not newer than the lookup key, the lookup finds the newest such entry. |
| `Table.SeparatorsAscend` | iosApp/Pods/leveldb-library/table/table_builder.cc:94-123 | Shortened separators ascend, so the index can be searched. |
| `Table.TableBuilder.Finish` | iosApp/Pods/leveldb-library/table/table_builder.cc:198-253 | The finished data blocks, index and filter are those InternalGet relies on. |
| `Table.HandleRoundTrip` | iosApp/Pods/leveldb-library/table/format.cc:15-29 | A block handle is read back as written. |
| `Table.FramedReads` | iosApp/Pods/leveldb-library/table/format.cc:64-140 | A block with its trailer is read back, checksum verified or not. |
| `TableFile.BuildAndGet` | iosApp/Pods/leveldb-library/table/table.cc:38-125 | From sorted pairs to the bytes of a table file and from the bytes alone to a lookup: the newest operation on the user key not newer than the lookup key, or nothing if the pairs have none; whatever the block size, restart interval, filter, reader policy and checksum verification. |
| `TableFile.BuildTable` | iosApp/Pods/leveldb-library/db/builder.cc:17-79 | The file built from sorted pairs holds exactly them, with filter, metaindex, index and footer in their places. |
| `TableFile.Open` | iosApp/Pods/leveldb-library/table/table.cc:38-80 | Opening a table file finds its index, and its filter exactly when the reader has the policy it was made with. |
| `TableFile.Get` | iosApp/Pods/leveldb-library/db/table_cache.cc:100-112 | A lookup in a table file answers from the pairs in it. |
| `TableFile.FooterRoundTrip` | iosApp/Pods/leveldb-library/table/format.cc:31-62 | A footer is read back as written, padding and magic number included. |
| `VersionEdits.RoundTrip` | iosApp/Pods/leveldb-library/db/version_edit.cc:41-203 | Decoding an encoded edit into a fresh object restores it. |
| `VersionEdits.DecodeFrom` | iosApp/Pods/leveldb-library/db/version_edit.cc:105-203 | Takes the fields in the order they come, and succeeds exactly on well-formed input. |
| `Replay.ReplayIsSequential` | iosApp/Pods/leveldb-library/db/version_set.cc:629-730 | Applying all edits through one Builder gives the same files as installing them one at a time, when each number is added at most once. |
| `Replay.ReplayExact` | iosApp/Pods/leveldb-library/db/version_set.cc:629-730 | Whatever the edits, applying all of them through one Builder gives the same files as installing them one at a time, unless some edit removes a file that no later edit adds again, and the last edit to concern its number adds a file under it; and then it does not. |
| `Replay.SameLists` | iosApp/Pods/leveldb-library/db/version_set.cc:672-715 | The same, for the sorted file lists. |
| `Replay.ReusedNumberReturns` | iosApp/Pods/leveldb-library/db/version_set.cc:629-669 | A number deleted and used again brings the old file back. |
| `Replay.RecoverManifest` | iosApp/Pods/leveldb-library/db/version_set.cc:862-987 | Reading a manifest back gives the file lists and counters of the edits installed one by one. |
| `Manifests.ReadManifest` | iosApp/Pods/leveldb-library/db/version_set.cc:862-987 | For every run of the engine, reading back the edits of its manifest gives, level by level, exactly the files of the version last committed. |
| `Manifests.RunRecords` | iosApp/Pods/leveldb-library/db/version_set.cc:777-860 | In every run a manifest record adds to a level only file numbers the level never had: files get fresh numbers and only ever move down. |
| `Manifests.EditsReplay` | iosApp/Pods/leveldb-library/db/version_set.cc:629-730 | The edits between such versions use no number twice on a level and lead from one version to the next. |
| `Replay.ReplayAll` | iosApp/Pods/leveldb-library/db/version_set.cc:862-987 | All edits through one Builder give the sorted list of what they leave. |
| `Replay.InstallEach` | iosApp/Pods/leveldb-library/db/version_set.cc:777-860 | Edits installed one at a time give the sorted list of what each leaves. |
| `Lru.LruCache.Insert` | iosApp/Pods/leveldb-library/util/cache.cc:267-304 | A new entry takes the place of its key's old one; unreferenced entries go, those released longest ago first and no more than needed; afterwards usage is within capacity or no entry is unreferenced. |
| `Lru.LruCache.Lookup` | iosApp/Pods/leveldb-library/util/cache.cc:253-260 | The entry of the key, referenced for the caller and off the LRU list, or nothing if there is none. |
| `Lru.LruCache.Release` | iosApp/Pods/leveldb-library/util/cache.cc:262-265 | Gives back one reference; the last one of a client puts a cached entry at the newest end of the LRU list. |
| `Lru.LruCache.Erase` | iosApp/Pods/leveldb-library/util/cache.cc:319-322 | Takes the key out; its entry lives on while clients refer to it. |
| `Lru.LruCache.Prune` | iosApp/Pods/leveldb-library/util/cache.cc:324-335 | Throws out exactly the entries no client refers to. |
| `Lru.HeldIsLive` | iosApp/Pods/leveldb-library/util/cache.cc:226-238 | An entry a client refers to is never freed. |
| `Lru.FreedExactly` | iosApp/Pods/leveldb-library/util/cache.cc:226-238 | An entry is freed exactly when neither a client nor the cache refers to it. |
| `Lru.OnOneList` | iosApp/Pods/leveldb-library/util/cache.cc:151-196 | A cached entry is on exactly one list, the LRU list if and only if the cache holds its only reference. |
| `Lru.TableInsert` | iosApp/Pods/leveldb-library/util/cache.cc:79-93 | The chained hash table stays a map, through resizing, and returns the entry it replaced. |
| `Lru.TableRemove` | iosApp/Pods/leveldb-library/util/cache.cc:95-105 | Removes exactly the entry of the key. |
| `NanopbRoundTrip.RoundTrip` | iosApp/Pods/nanopb/pb_decode.c:934-1096 | A message encoded into a buffer and decoded again comes back as it was if and only if it fits the buffer and every array, byte array and text in it is within its field, NUL included. |
| `NanopbRoundTrip.UnterminatedText` | iosApp/Pods/nanopb/pb_encode.c:873-897 | A text filling its array can be encoded but not decoded. |
| `NanopbEncode.EncodeMessage` | iosApp/Pods/nanopb/pb_encode.c:528-550 | Succeeds exactly when the message can be encoded and fits; writes its encoding, or a beginning of it; a counting stream counts the same length. |
| `NanopbEncode.EncodeSubmessage` | iosApp/Pods/nanopb/pb_encode.c:717-765 | The counting pass and the writing pass agree at every depth. |
| `NanopbEncode.EncodeArray` | iosApp/Pods/nanopb/pb_encode.c:147-236 | Packed when the type allows, one record per entry otherwise, an error when the count exceeds the array. |
| `NanopbEncode.GetEncodedSize` | iosApp/Pods/nanopb/pb_encode.c:567-578 | The length of the encoding, or nothing for a message that cannot be encoded. |
| `NanopbDecode.DecodeMessage` | iosApp/Pods/nanopb/pb_decode.c:934-1082 | On any input, success leaves a structure within its bounds with every required field read; on the encoding of a message it restores the message and consumes every byte. |
| `NanopbDecode.DecodeField` | iosApp/Pods/nanopb/pb_decode.c:406-483 | The same for one field, by its rule. |
| `NanopbDecode.DecodeVarint32` | iosApp/Pods/nanopb/pb_decode.c:187-247 | On varints of any length: one of at most five bytes is accepted exactly when it fits 32 bits; a longer one exactly when every byte after the fifth adds nothing or repeats the sign up to bit 63, and gives its low 32 bits; one that does not end is refused. |
| `NanopbDecode.DecodeNumber` | iosApp/Pods/nanopb/pb_decode.c:1345-1428 | Accepts a varint exactly when its meaning, sign extension and zigzag included, fits the field. |
| `NanopbDecode.FindField` | iosApp/Pods/nanopb/pb_common.c:87-106 | Finds the field of a tag from any starting point, or that there is none. |
| `NanopbReplay.RecordsRestore` | iosApp/Pods/nanopb/pb_decode.c:406-483 | The records of a message, read into a structure at its defaults, are all accepted and restore the message. |
| `NanopbReplay.UnsetIsDefault` | iosApp/Pods/nanopb/pb_encode.c:240-335 | A submessage the encoder takes for unset is the default one. |

## Left out

- I/O errors other than failing log appends and syncs, and corrupted files. After a failed append any of the records behind it may be unreadable, and neither is any misread nor is the failed record whole: that a checksum matches by accident is left out, and so is `paranoid_checks`, with which opening such a log fails. After a failing sync the engine writes no more.
- Logs in the engine are sequences of records, and behind a failed append a crash may take any of them, also where the bytes would still be readable. That a file cut at any byte gives back exactly its complete records is `LogFormat.RoundTrip`; that a record gives back its operations is `WriteBatches.WriteBatch.Iterate`. Tables and the manifest are synced before they are used, as in the code, so a crash does not cut them.
- Log and manifest reuse (`reuse_logs`), and the repair tool.
- EngineMain.RunInv: has no compactions that bring a deleted value back, now or after a crash, and no flushes into a gap of a running compaction, after which the invariant is false; `Exactness` says exactly when they happen and `Reachable` that they do. Manual compactions with gaps are in the runs. The queue of writers is in `GroupCommit`; its runs are runs of the engine by `GroupRefinement.EveryGroupRun`.
- EngineMain.NothingNeededIsRemoved: covers tables and logs, not old manifests and temporary files, nor the early return after a background error.
- Install.InstallKeepsTree: speaks of jobs that fit the version; that chosen jobs do is `Install.ChosenFits`.
- Running out of sequence numbers: the engine's runs stay below kMaxSequenceNumber, as the code assumes without checking.
- Internal keys that do not parse, custom comparators and the empty batch's header number.
- When a compaction is due (scores, seek counts, read sampling), when a memtable is full, and the sizes of tables: left open, as parameters. In `Reachable` tables have size 1 and the level compacted next is given.
- Iterating.IterateInRun: all calls come in one state of the run; between states `Iterating.ShowsTheSame` says that the pairs stay the same. Lazy opening of tables and blocks is not modelled.
- Block.DecodeEncoded: the sum of the two lengths an entry announces is not reduced to 32 bits, so damaged entries whose lengths add up to 4 GiB or more are refused.
- Blocks with inconsistent contents: `Block.Iter` reads blocks that were built, not damaged ones; manifests with malformed records likewise in `Replay.RecoverManifest`.
- Compression: a block of a type other than "not compressed" counts as unreadable in `Table.ReadBlock`.
- TableFile.BuildAndGet: keys, values and bookkeeping together stay below 4 GiB, as the 32-bit lengths and offsets of the format assume.
- FilterBlock.KeyMayMatch: a base of more than 63 bits, where the shift is undefined, counts as a large power of two.
- Bloom.CreateFilter: the number of probes is 69/100 of the bits per key, rounded down, in whole numbers instead of floating point; below the cap of 30 the exact product is zero or at least 1/100 away from a whole number, far more than rounding.
- The sharded cache around `Lru`, its hash function and its mutex; charges are unbounded.
- Weak memory in the skip list: loads and stores are atomic and in order.
- nanopb callbacks, extensions, malloc-backed fields and delimited or NUL-terminated variants of the calls.
- NanopbDecode.DecodeVarint32: the shift count is unbounded, as with a wide `uint_fast8_t`; where that type has eight bits, the count wraps on a varint continued over more than 36 bytes.
- Nanopb.Defaults: a repeated field without count starts at zeros; the code leaves what was there and clears its first bytes.
- A message structure is a value in the model: layout, padding, unused array entries and bytes after a NUL are not represented.
- The Swift user interface, Firebase headers, environment, loggers and C bindings.
