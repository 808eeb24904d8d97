# LevelDB and nanopb, verified

A model of two libraries that the messaging app carries under `Pods`, and proofs about it.
LevelDB is a log-structured merge store; the proofs show that its layered structures behave
like the plain ones they stand for. nanopb encodes and decodes protocol buffers by way of
field descriptors; the proofs show what comes back. Run `dafny verify dfyconfig.toml` to
check all of it.

## LevelDB

An internal key is a user key, a sequence number and a type. A memtable and a table file
are sorted runs of entries, and a version is seven levels of files. The specification is the
list of all writes: a reader at a sequence number sees the map left by the writes up to it.

- **The store** (`Keys`, `History`, `Files`, `Compactions`, `CompactionWork`, `Outputs`, `Lsm`,
  `Builders`, `Install`, `Reads`, `Boundary`, `Children`, `Stores`, `Steps`, `Core`,
  `Alone`, `Db`, `Runs`, `Resurrecting`): reads and writes, snapshots, memtable switches,
  flushes, trivial moves, compactions with the choice of their inputs and the drop rules.
  Every operation of class `DB` keeps the ordering invariant, and `Db.Round` says in full what
  a round of background work does. Whether readers notice a compaction is settled by a
  condition that is exact.
- **Iterators** (`Merger`, `DbIter`, `TwoLevel`): cursors that change direction, each one
  against a sorted sequence and a place in it.
- **Durable forms** (`Coding`, `Logs`, `Batches`, `Recovery`, `VersionEdits`, `Manifest`,
  `Blocks`, `Filters`, `Separators`, `Tables`, `TableBuilders`, `TableReaders`,
  `DiskFormats`): each has a writer and a reader, and the reader undoes the writer, also where
  a crash has cut the file short; and the bytes are those that other programs expect.
- **Crashes** (`Durable`, `Joint`, `Reopening`): the tables without the memtables, the write
  queue and the database in one run, and the database that is opened after a crash.
- **Threads** (`GroupCommit`, `Interleavings`, `SkipLists`): the write queue and the skip list
  as state machines whose steps are what a thread does between two others, over every
  interleaving; each run is that of a transition function, and can come to its end.
- **Heap structures** (`HandleTables`, `LruCaches`, `CacheRuns`): the cache with its chained
  hash table, two circular lists and reference counts.

## nanopb

A descriptor is a tree of fields with numbers, rules (required, optional, repeated, member
of a union) and types (`Messages`). `Encoders` has output streams, which may only count,
and the two passes over whatever has a length in front. `Decoders` says what any bytes
decode to, and has input streams, substreams and field iterators that do it. `Wire` proves
that decoding undoes encoding, `Bounds` that what is decoded fits its struct, and `Formats`
that messages of other writers are read, and those written here read by others, as the format
wants it.

## Findings

Three properties that one would expect do not hold. Each has an input that shows it and the
exact condition under which it does hold.

- A compaction may bring a deleted value back. `SetupOtherInputs` (`db/version_set.cc:1403-1462`)
  closes the inputs of the upper level over shared user keys, but not those of the lower
  level, and outputs may be cut between two entries of one user key. `Resurrecting.LoseDeletion`
  is a run in which it happens; `Reads.SafeIffSameReads` gives the condition; closed lower
  inputs meet it (`Boundary.LowerClosedIsSafe`), and so does every compaction of a run in which
  no compaction starts while a snapshot is held (`Runs.Run`). A newer write in a memtable may
  cover such a value until a crash takes that write away, so for the tables alone there is a
  condition of its own, `Durable.DiskReads`.
- A crash may keep a later write and lose an earlier one. `MakeRoomForWrite`
  (`db/db_impl.cc:1310-1370`) switches to a new log without syncing the old one.
  `Interleavings.SecondWithoutFirst` is a run in which it happens;
  `GroupCommit.WriteQueue.PrefixInEveryCrash` gives the condition, which every run meets whose
  writers all ask for a sync. Writes that returned with a sync are never lost. The database is
  in order after such a crash too: `Reopening.Open` says what it then shows.
- A message may be encoded but not decoded again. `pb_enc_string` takes a string that fills
  its field, `pb_dec_string` wants room for a terminator. `Wire.FullString` is a message for
  which this happens; `Wire.RoundTrip` gives the condition.

## Model

| member | source | states |
|---|---|---|
| Runs.Run | messaging-app/Pods/leveldb-library/db/db_impl.cc:688-1256 | For every list of commands (batches, reads, read samples, snapshots taken and dropped, memtable switches, background rounds, installations) the answers are those of a plain map and frozen copies of it, if every compaction was safe; and every compaction is safe if none starts while a snapshot is held, which can be read off the commands. The states between the commands are returned, and each follows from the one before it as its command says, so that no write, switch, flush, move, compaction or installation that is possible is left out. |
| Runs.Step | messaging-app/Pods/leveldb-library/db/db_impl.cc:688-1256 | One command: what it answers, and what it makes of memtables, tables, version, snapshots, compaction pointers, offered file, allowed seeks and running compaction; a command that would have to wait changes nothing. |
| Resurrecting.LoseDeletion | messaging-app/Pods/leveldb-library/db/version_set.cc:1403-1422 | A finding. A run of 14 commands, with one snapshot taken and dropped again, after which a deleted key reads as its old value: the database has the writes and snapshots of exactly these commands, some compaction was not safe, and the plain map answers that there is no such key. SetupOtherInputs closes the upper inputs with AddBoundaryInputs but not those of the next level. |
| Reads.SafeIffSameReads | messaging-app/Pods/leveldb-library/db/db_impl.cc:953-977 | Exactly when a compaction is right: all readers at or above the smallest snapshot see the same before and after it if and only if, for each user key, a deletion that the drop rules drop hides no value left out on the lower level. |
| Boundary.LowerClosedIsSafe | messaging-app/Pods/leveldb-library/db/version_set.cc:1407-1422 | When no file left out on the lower level goes on with the last user key of the lower inputs, every user key is safe, so the compaction preserves all reads. |
| Boundary.Resurrection | messaging-app/Pods/leveldb-library/db/version_set.cc:1407-1411 | A version in order, with inputs as SetupOtherInputs leaves them, in which the drop rules bring a deleted value back for a reader of the newest state. |
| Alone.ApartIsClosed | messaging-app/Pods/leveldb-library/db/version_set.cc:1403-1422 | While no user key is shared by two files of a level above 0, the lower inputs of every compaction are closed. |
| Alone.KeptOneEach | messaging-app/Pods/leveldb-library/db/db_impl.cc:953-977 | When no reader is older than any entry of the inputs, at most one entry per user key is kept, so no cut between outputs divides a user key. |
| Alone.InstallApart | messaging-app/Pods/leveldb-library/db/db_impl.cc:860-876 | Installing such outputs keeps the user keys of the files of each level above 0 apart. |
| Durable.DiskReads | messaging-app/Pods/leveldb-library/db/db_impl.cc:953-977 | What the tables alone show, the memtables left aside, is the same before and after a compaction, for readers at or above the smallest snapshot, if and only if the compaction is safe without the memtables' entries. |
| Durable.LayerReads | messaging-app/Pods/leveldb-library/db/db_impl.cc:535-566 | If tables read as the map left by the first writes, then together with a layer of the writes that follow they read as the map left by both. |
| Durable.InstallTables | messaging-app/Pods/leveldb-library/db/db_impl.cc:860-876 | Installing a compaction that is safe on disk keeps what the tables alone read as. |
| Db.DB.Write | messaging-app/Pods/leveldb-library/db/db_impl.cc:1185-1256 | A batch becomes entries under the next sequence numbers; the writes so far grow by exactly these, and the invariant of the database is kept. |
| Db.DB.Get | messaging-app/Pods/leveldb-library/db/db_impl.cc:1100-1145 | Answers what the entries of all places together say at the reader's sequence number, and, if every compaction was safe, what the map left by the writes up to it says; a file loses a seek exactly if neither memtable answers and the version reads more than one file, and then it is the first of them. |
| Db.DB.NewIterator | messaging-app/Pods/leveldb-library/db/db_impl.cc:1147-1157 | A fresh iterator over exactly the entries there are, in order; it shows exactly the keys and values of the map left by the writes up to the reader's sequence number, if every compaction was safe. |
| Db.DB.CompactMemTable | messaging-app/Pods/leveldb-library/db/db_impl.cc:535-566 | A flush keeps the invariant and the set of all entries, stores the memtable in one new file, placed as PickLevelForMemTableOutput says and with its allowed seeks, and an empty memtable in none; nothing else changes. |
| Db.DB.BackgroundCompaction | messaging-app/Pods/leveldb-library/db/db_impl.cc:688-764 | What a round does, in full. A pending memtable is flushed, and that is all. Otherwise the inputs are those of PickCompaction, or of CompactRange for a manual compaction, and the round is done exactly if there are none: no level over its limit and no file offered, or no file of the level within the range. The compaction pointer of the level moves to the largest upper key. A trivial move, unless manual, leaves the one input file on the next level and every other file in its place; any other inputs start a compaction at the oldest reader, with outputs cut where they have to be. |
| Db.DB.ChooseInputs | messaging-app/Pods/leveldb-library/db/db_impl.cc:699-713 | The inputs are chosen as said, and the compaction pointer of their level, and of no other, becomes the largest key of the upper ones. |
| Db.DB.MoveFile | messaging-app/Pods/leveldb-library/db/db_impl.cc:718-728 | The input file has left its level and stands on the next one, no other file has changed its place, no file is offered any more, and all entries are there. |
| Db.DB.StartCompaction | messaging-app/Pods/leveldb-library/db/db_impl.cc:878-1036 | A compaction of the inputs is running, fixed at the oldest sequence number a reader uses, with outputs that hold the kept entries and are cut where they have to be. |
| Db.DB.InstallCompactionResults | messaging-app/Pods/leveldb-library/db/db_impl.cc:860-876 | The outputs replace the inputs; the invariant is kept; and the reads of all readers at or above the smallest snapshot stay the same if and only if the compaction was safe. |
| Db.DB.RecordReadSample | messaging-app/Pods/leveldb-library/db/db_impl.cc:1159-1164 | Sampling an internal key of an iterator keeps the invariant and charges a seek to exactly the first file that a read of the key may look into if there is a second one, and to none otherwise. |
| Db.DB.UpdateStats | messaging-app/Pods/leveldb-library/db/version_set.cc:423-434 | The charged file loses one of its seeks, and it is offered for compaction when none is left and no other file is offered; without a charge nothing changes. |
| Steps.PickLevelForMemTableOutput | messaging-app/Pods/leveldb-library/db/version_set.cc:491-516 | The deepest level up to 2 that the new file reaches without passing an overlapping file and without lying over too many bytes two levels down. |
| Steps.FlushKeeps | messaging-app/Pods/leveldb-library/db/db_impl.cc:535-566 | A flush to any level that it reaches over files that do not overlap it keeps newer entries above older ones in every place, and all entries. |
| Steps.MoveKeeps | messaging-app/Pods/leveldb-library/db/db_impl.cc:718-728 | A trivial move keeps newer entries above older ones, levels above 0 sorted and disjoint, and all entries. |
| Steps.CompactionKeeps | messaging-app/Pods/leveldb-library/db/db_impl.cc:860-1036 | A compaction keeps newer entries above older ones and levels sorted and disjoint, whether it is safe or not; the entries after it are those elsewhere and the kept ones; and reads are preserved exactly when it is safe. |
| Install.SinkKeepsOk | messaging-app/Pods/leveldb-library/db/version_set.cc:1403-1462 | Moving upper inputs that may sink, or the outputs of a compaction, one level down keeps the version in order. |
| History.ReplayIsRead | messaging-app/Pods/leveldb-library/db/db_impl.cc:1100-1145 | The newest entry visible at a sequence number, a deletion counted as absent, is what replaying the writes up to that number as plain map updates gives. |
| Lsm.VersionGet | messaging-app/Pods/leveldb-library/db/version_set.cc:326-421 | Version::Get, level by level with early exit and binary search, finds the newest visible entry of the whole version; it charges a file exactly when the first candidate does not answer and there is another one, the one that sampling the same key would charge, never on the last level. |
| Lsm.RecordReadSample | messaging-app/Pods/leveldb-library/db/version_set.cc:436-472 | Charges the first file that a read of the key may look into, if there is a second one. |
| Lsm.CandidateFiles | messaging-app/Pods/leveldb-library/db/version_set.cc:282-323 | One level of ForEachOverlapping: the files that span the user key, newest first, at level 0; at most one file, found by binary search, below. |
| Stores.StoreGet | messaging-app/Pods/leveldb-library/db/db_impl.cc:1100-1145 | Memtable, immutable memtable, then version: the first answer is the newest visible entry of all of them; a file is charged only if both memtables have none. |
| Stores.NewInternalIterator | messaging-app/Pods/leveldb-library/db/db_impl.cc:1062-1087 | The merged view holds exactly the entries of both memtables and all files, sorted. |
| Children.MakeInputIterator | messaging-app/Pods/leveldb-library/db/version_set.cc:1237-1268 | The merged view of a compaction holds exactly the entries of its inputs, sorted. |
| Merger.MergingIterator.Next | messaging-app/Pods/leveldb-library/table/merger.cc:55-79 | From any valid position and either direction, the cursor over the sorted union of the children moves forward by exactly one. |
| Merger.MergingIterator.Prev | messaging-app/Pods/leveldb-library/table/merger.cc:81-108 | From any valid position and either direction, the cursor over the sorted union moves back by exactly one, or off the front. |
| Merger.MergingIterator.Seek | messaging-app/Pods/leveldb-library/table/merger.cc:47-53 | The cursor stands on the first entry of the union at or after the target. |
| Merger.MergingIterator.TurnForward | messaging-app/Pods/leveldb-library/table/merger.cc:62-74 | The switch to the forward direction keeps the position and the current child, and leaves every child on its first entry at or after it. |
| Merger.MergingIterator.TurnReverse | messaging-app/Pods/leveldb-library/table/merger.cc:88-104 | The switch to the reverse direction keeps the position and the current child, and leaves every child on its last entry at or before it. |
| Merger.LeastIsNext | messaging-app/Pods/leveldb-library/table/merger.cc:148-161 | The least of the children's next entries, which FindSmallest selects, is the next entry of the sorted union. |
| Merger.GreatestIsLast | messaging-app/Pods/leveldb-library/table/merger.cc:163-176 | The greatest of the children's last passed entries, which FindLargest selects, is the last passed entry of the sorted union. |
| DbIter.DBIter.Next | messaging-app/Pods/leveldb-library/db/db_iter.cc:141-198 | From any valid position and either direction, the place in the sorted map of live keys moves forward by one, past overwritten, deleted and too new entries. |
| DbIter.DBIter.Prev | messaging-app/Pods/leveldb-library/db/db_iter.cc:200-267 | The place in the sorted map of live keys moves back by one, or off the front. |
| DbIter.DBIter.Seek | messaging-app/Pods/leveldb-library/db/db_iter.cc:269-281 | The place is that of the first live key at or after the target. |
| DbIter.DBIter.SeekToFirst | messaging-app/Pods/leveldb-library/db/db_iter.cc:283-292 | The place is that of the first live key. |
| DbIter.DBIter.SeekToLast | messaging-app/Pods/leveldb-library/db/db_iter.cc:294-299 | The place is that of the last live key. |
| TwoLevel.TwoLevelIterator.Seek | messaging-app/Pods/leveldb-library/table/two_level_iterator.cc:82-87 | Over blocks, empty ones included, the cursor over their concatenation stands on the first entry at or after the target. |
| TwoLevel.TwoLevelIterator.Next | messaging-app/Pods/leveldb-library/table/two_level_iterator.cc:103-126 | The cursor over the concatenation moves forward by one, over block ends and empty blocks. |
| TwoLevel.TwoLevelIterator.Prev | messaging-app/Pods/leveldb-library/table/two_level_iterator.cc:109-139 | The cursor over the concatenation moves back by one, or off the front. |
| Files.FindFile | messaging-app/Pods/leveldb-library/db/version_set.cc:88-106 | Binary search splits a sorted level at the first file whose largest key is at or after the key. |
| Files.SomeFileOverlapsRange | messaging-app/Pods/leveldb-library/db/version_set.cc:122-157 | True exactly if some file shares a user key with the range, by scan or by binary search. |
| Files.GetOverlappingInputs | messaging-app/Pods/leveldb-library/db/version_set.cc:519-559 | Above level 0 the files that overlap the range; at level 0, where the scan restarts, exactly the files that overlap the least range that contains the query and every file overlapping it. |
| Files.AddBoundaryInputs | messaging-app/Pods/leveldb-library/db/version_set.cc:1326-1401 | No file of the level is left that starts with the user key of the largest input key and lies after it; consecutive files stay consecutive, and closed inputs stay as they are. |
| Compactions.SetupOtherInputs | messaging-app/Pods/leveldb-library/db/version_set.cc:1403-1462 | The upper inputs are the given ones closed over boundary files, or the larger set exactly when there are lower inputs, the set grows, stays within the limit and brings in no further file of the next level; they may sink; the lower ones are the overlapping files of the next level, the grandparents those two levels down; the pointer is the largest upper key. |
| Compactions.PickCompaction | messaging-app/Pods/leveldb-library/db/version_set.cc:1270-1322 | Nothing is picked exactly if no level is over its limit and no file is offered; a level over its limit comes first, the fullest one, with the file after its compaction pointer or the first file; otherwise the offered file. At level 0 all files that overlap it come along; boundary files, lower inputs, grandparents and pointer are those of SetupOtherInputs. |
| Compactions.CompactRange | messaging-app/Pods/leveldb-library/db/version_set.cc:1464-1495 | Nothing exactly if no file of the level overlaps the range; otherwise all overlapping files at level 0, and above it the first of them up to the one that reaches the size limit; boundary files, lower inputs, grandparents and pointer are those of SetupOtherInputs. |
| Compactions.Finalize | messaging-app/Pods/leveldb-library/db/version_set.cc:1050-1086 | The first of the fullest levels, never the last level. |
| Compactions.OverLimitIs | messaging-app/Pods/leveldb-library/db/version_set.cc:1050-1086 | A level is over its limit exactly with four files on level 0, ten megabytes on level 1, a hundred on level 2, and so on to level 5. |
| CompactionWork.DoCompactionWork | messaging-app/Pods/leveldb-library/db/db_impl.cc:878-1036 | The outputs together are exactly the input entries that neither drop rule drops, in order. An output ends before a kept entry exactly if it has reached the size of an output, or the grandparents passed since the last stop weigh more than the limit at an input since its last entry; where the stops are follows from the grandparents and the keys of the inputs alone. |
| Outputs.CutsDetermined | messaging-app/Pods/leveldb-library/db/db_impl.cc:921-1001 | There is one way only to cut the kept entries so that every output ends where it is due to and nowhere else. |
| Outputs.OutputOverlapsLittle | messaging-app/Pods/leveldb-library/db/version_set.cc:1554-1576 | The grandparents that an output passes, from its first entry to its last, weigh at most the limit. |
| CompactionWork.Progress.IsBaseLevelForKey | messaging-app/Pods/leveldb-library/db/version_set.cc:1533-1552 | For user keys asked about in nondecreasing order the cursors give the exact answer: no deeper file spans the key. |
| CompactionWork.Progress.ShouldStopBefore | messaging-app/Pods/leveldb-library/db/version_set.cc:1554-1576 | Stops exactly when the grandparent files passed since the last stop weigh more than the limit, and then starts counting anew. |
| Builders.Builder.SaveTo | messaging-app/Pods/leveldb-library/db/version_set.cc:695-739 | Each level of the new version is sorted and holds exactly the base and added files that are not deleted. |
| VersionEdits.EditRoundTrip | messaging-app/Pods/leveldb-library/db/version_edit.cc:41-205 | Decoding the stored form of an edit into a fresh edit gives the edit back. |
| VersionEdits.DecodeFrom | messaging-app/Pods/leveldb-library/db/version_edit.cc:107-205 | The decoder reads what the specification of the stored form reads, errors included. |
| Manifest.OneBuilder | messaging-app/Pods/leveldb-library/db/version_set.cc:590-755 | If no (level, number) is added twice, giving a sequence of edits to one builder is as good as building every version in between. |
| Manifest.Recover | messaging-app/Pods/leveldb-library/db/version_set.cc:886-1011 | A manifest of some edits, cut short anywhere, is read back as the version, numbers and pointers after a prefix of the edits, or as an error when that prefix lacks a number. |
| Manifest.VersionSet.LogAndApply | messaging-app/Pods/leveldb-library/db/version_set.cc:801-884 | The new version is the current one with the edit, and so are compaction pointers and log numbers; the manifest, started with a snapshot if there is none, has the edit as its last record, and the numbers are noted in it. |
| Manifest.VersionSet.Reopen | messaging-app/Pods/leveldb-library/db/version_set.cc:886-1011 | After any sequence of edits, reading the manifest gives back the current version, the log numbers, the compaction pointers, and the file and sequence numbers noted last. |
| Logs.LogWriter.AddRecord | messaging-app/Pods/leveldb-library/db/log_writer.cc:34-108 | A record of any size is appended as fragments that do not cross a block. |
| Logs.LogReader.ReadRecord | messaging-app/Pods/leveldb-library/db/log_reader.cc:56-271 | Where the file holds the bytes of a record as far as it goes, the record is returned exactly when all of it is there, and no corruption is reported either way. Whatever the file holds, a record that is returned is a full fragment, or a first, middle ones and a last one right behind each other, all with checksums that hold. |
| Logs.MaskUnmask | messaging-app/Pods/leveldb-library/util/crc32c.h:29-38 | Masking undoes unmasking on all 32-bit words. |
| Batches.ParseRoundTrip | messaging-app/Pods/leveldb-library/db/write_batch.cc:42-80 | Parsing the stored form of the operations of a batch gives them back. |
| Batches.Iterate | messaging-app/Pods/leveldb-library/db/write_batch.cc:42-80 | Hands on the operations that the stored form has, and succeeds exactly if all of it parses and the count agrees. |
| Batches.WriteBatch.Append | messaging-app/Pods/leveldb-library/db/write_batch.cc:144-148 | The stored form becomes that of both batches' operations one after the other, under the first sequence number. |
| Recovery.RecoverLogFile | messaging-app/Pods/leveldb-library/db/db_impl.cc:371-439 | A log cut short after any number of bytes replays as exactly the batches wholly inside it, in order, each once, without an error. |
| Recovery.CompleteIff | messaging-app/Pods/leveldb-library/db/log_reader.cc:56-271 | The batches that replay are the longest prefix whose bytes fit into what is left of the file. |
| Recovery.WriteIsLogged | messaging-app/Pods/leveldb-library/db/db_impl.cc:412-439 | The entries that a batch becomes when it is written are those that its log record makes when it is replayed. |
| Recovery.RecoveredReads | messaging-app/Pods/leveldb-library/db/db_impl.cc:412-439 | After a crash that left k batches of the log, every reader sees the map left by the writes of those batches. |
| GroupCommit.BuildBatchGroup | messaging-app/Pods/leveldb-library/db/db_impl.cc:1260-1306 | The group is the longest run of writers from the front that neither the size limit nor a sync writer behind a leader without sync ends, and its operations are theirs in order. |
| GroupCommit.WriteQueue.Lead | messaging-app/Pods/leveldb-library/db/db_impl.cc:1194-1203 | The front writer leads the longest group there is, with the operations of its writers under the next sequence numbers. |
| Interleavings.Interleave | messaging-app/Pods/leveldb-library/db/db_impl.cc:1185-1370 | For every list of moves (arriving writers, leaders, log appends, syncs, inserts, acknowledgements, memtable switches, flushes) the queue is the one that a transition function of its own makes of them, and those that arrived are the accepted writers in order. What is logged, and what is inserted, is a prefix of their batches, each once, under consecutive sequence numbers; readers see exactly those of the writers that have returned; between groups these are all that is logged; and if every writer asks for a sync, no crash leaves a gap. |
| Interleavings.Take | messaging-app/Pods/leveldb-library/db/db_impl.cc:1185-1370 | Every move is made whenever it is possible, with all that it changes: the writers in the queue, the leader and its group, which is the longest one, the records logged and synced, the memtables, and who has returned; one that is not possible changes nothing. |
| Interleavings.Determined | messaging-app/Pods/leveldb-library/db/db_impl.cc:1185-1370 | The summary that the transition function works on settles the rest: who waits, the last sequence number, the operations of the leader, the contents of memtables and tables, and the bytes of both logs. |
| Interleavings.EveryRunCanEnd | messaging-app/Pods/leveldb-library/db/db_impl.cc:1213-1256 | However a run went, it can go on without new writers until every accepted writer has returned. |
| GroupCommit.WriteQueue.ReadersSeeWholeBatches | messaging-app/Pods/leveldb-library/db/db_impl.cc:1213-1240 | A reader at the last sequence number sees exactly the batches of the writers that have returned. |
| GroupCommit.WriteQueue.CrashKeepsSynced | messaging-app/Pods/leveldb-library/db/db_impl.cc:1206-1236 | In every reachable state, after a crash that leaves at least the synced bytes of each log, what is recovered has the whole batch of every sync writer that has returned. |
| GroupCommit.WriteQueue.PrefixInEveryCrash | messaging-app/Pods/leveldb-library/db/db_impl.cc:1345-1366 | Every crash leaves a prefix of the writes if and only if the old log is synced up to its last operation or the new log holds no operation; MakeRoomForWrite switches logs without a sync. |
| GroupCommit.WriteQueue.EverySyncIsPrefix | messaging-app/Pods/leveldb-library/db/db_impl.cc:1206-1236 | If every writer that ever arrived asks for a sync, the condition holds in every reachable state: every crash leaves a prefix. |
| GroupCommit.WriteQueue.OldLogSyncedIsPrefix | messaging-app/Pods/leveldb-library/db/db_impl.cc:1345-1366 | So it does whenever the old log, if there is one, is synced to its last byte. |
| Interleavings.SecondWithoutFirst | messaging-app/Pods/leveldb-library/db/db_impl.cc:1345-1366 | A finding. A run of twelve moves after which a crash keeps the second of two acknowledged writes and loses the first: a write without sync, a switch, a write with sync. |
| Joint.RunBoth | messaging-app/Pods/leveldb-library/db/db_impl.cc:1185-1256 | Write queue and database in one run, for every order of steps of writers, readers and background work: the database holds exactly the operations of the writers that have returned, its memtables are those of the queue, and, if no snapshot is taken, the tables alone always read as the map left by what was stored in them. The states between the events are returned: the queue makes its moves, and the database does what each means. |
| Joint.FinishBoth | messaging-app/Pods/leveldb-library/db/db_impl.cc:1203-1240 | When a leader publishes its group, the database gains exactly the operations of the group, and the writers of the group have returned. |
| Joint.BackgroundBoth | messaging-app/Pods/leveldb-library/db/db_impl.cc:688-764 | A round of background work keeps queue and database together, and the tables alone as they should read; a flush counts the immutable memtable among what is stored. |
| Joint.InstallBoth | messaging-app/Pods/leveldb-library/db/db_impl.cc:860-876 | So does the installation of a compaction that started without snapshots, or that is safe on disk. |
| Reopening.ReplayLog | messaging-app/Pods/leveldb-library/db/db_impl.cc:371-489 | One log that a crash cut short: its operations are cut wherever the memtable is found full, and each stretch, the last one included, becomes a table of its own on level 0; the store then shows the map left by the earlier writes and those of the batches wholly inside the file, also if sequence numbers in between were lost. |
| Reopening.Open | messaging-app/Pods/leveldb-library/db/db_impl.cc:280-369 | After any crash that keeps at least the synced bytes of each log, opening the tables, the manifest and the logs gives a database in order that shows the map left by what was stored and by the records left, in that order; they hold the whole batch of every sync writer that had returned, and are a prefix of all writes if the logs leave no gap; the last sequence number is that of the manifest or of the last record. |
| SkipLists.SkipList.ReadLink | messaging-app/Pods/leveldb-library/db/skiplist.h:260-322 | A search that takes one link at a time, with link stores of an Insert in between, ends on the lower bound of its key among the entries that readers can find at its last read. |
| SkipLists.SkipList.PublishLink | messaging-app/Pods/leveldb-library/db/skiplist.h:337-368 | After every single link store each level is a sorted sublist of the level below it, and the new entry becomes visible with the link on the lowest level, in its place. |
| SkipLists.Interleave | messaging-app/Pods/leveldb-library/db/skiplist.h:260-368 | For every interleaving of insertion steps and reads, the list holds the entries that a transition function makes of the moves, in order, and each search that has ended found the first entry at or after its key among those that were there when it began, or one that was inserted since and comes before it. |
| SkipLists.Step | messaging-app/Pods/leveldb-library/db/skiplist.h:260-368 | One move of a writer or a reader, made whenever it is possible: the next link of the writer, or one read that brings a search forward along its level, down, or to its end; every search that has ended answered, and a reader that starts is measured against the entries that are there at that time. |
| SkipLists.InsertEnds | messaging-app/Pods/leveldb-library/db/skiplist.h:337-368 | A writer that goes on comes to its end, after two steps for each level that is left, and its entry is in its place. |
| SkipLists.SkipList.FindGreaterOrEqual | messaging-app/Pods/leveldb-library/db/skiplist.h:260-281 | With no writer around a search comes to its end, on the lower bound of its key. |
| Keys.InsertEntryOk | messaging-app/Pods/leveldb-library/db/memtable.cc:75-98 | Inserting an entry at its lower bound keeps the memtable sorted and adds exactly that entry. |
| Blocks.StoreAndRead | messaging-app/Pods/leveldb-library/table/block_builder.cc:62-106 | Any pairs stored with any restart interval are read back one by one; building fails only when the pairs weigh four gigabytes. |
| Blocks.BlockBuilder.Finish | messaging-app/Pods/leveldb-library/table/block_builder.cc:62-106 | The bytes are those of the entries, with shared prefixes cut, the restart array and its length. |
| Blocks.BlockIter.Seek | messaging-app/Pods/leveldb-library/table/block.cc:163-201 | Binary search over the restart points and a linear search end on the first pair at or after the target. |
| Blocks.BlockIter.Prev | messaging-app/Pods/leveldb-library/table/block.cc:142-161 | Goes back by exactly one pair by way of the restart point before it. |
| Separators.FindInternalSeparator | messaging-app/Pods/leveldb-library/db/dbformat.cc:69-86 | The index key lies at or after the last key of its block and before the first key of the next one; it is another than the former exactly if the user key becomes shorter, and then it has the largest tag. |
| Separators.FindShortestSeparator | messaging-app/Pods/leveldb-library/util/comparator.cc:29-50 | The separator is the first key or lies strictly between both; exactly where there is room at the first difference it ends there, raised by one. |
| Filters.CreatedMatches | messaging-app/Pods/leveldb-library/util/bloom.cc:28-80 | A Bloom filter matches every key it was made of, for any number of bits per key and with hashes that wrap at 32 bits. |
| Filters.AskForAdded | messaging-app/Pods/leveldb-library/table/filter_block.cc:21-104 | For every legal sequence of StartBlock and AddKey, the bytes of the finished filter block, if they are fewer than four gigabytes, match each key that was added at the offset of its block. |
| Tables.FooterRoundTrip | messaging-app/Pods/leveldb-library/table/format.cc:31-62 | Decoding a footer gives both handles back. |
| Tables.ReadIffStored | messaging-app/Pods/leveldb-library/table/format.cc:65-122 | With checksums verified, a block is read exactly where it stands in the file with its trailer, whatever the file holds. |
| DiskFormats.FragmentFormat | messaging-app/Pods/leveldb-library/db/log_writer.cc:34-108 | Zeros up to the next block of 32768 bytes if fewer than seven are left, then checksum, length, type (1 full, 2 first, 3 middle, 4 last) and data, within the block; a fragment that is not the last fills it. |
| DiskFormats.PhysicalFormat | messaging-app/Pods/leveldb-library/db/log_writer.cc:79-108 | The seven bytes in front of the data, digit by digit. |
| DiskFormats.BatchFormat | messaging-app/Pods/leveldb-library/db/write_batch.cc:5-27 | Eight bytes of sequence number and four of count, lowest digit first, then the operations. |
| DiskFormats.OpFormat | messaging-app/Pods/leveldb-library/db/write_batch.cc:98-111 | A put starts with 1 and a deletion with 0, and each string with its length. |
| DiskFormats.FieldFormat | messaging-app/Pods/leveldb-library/db/version_edit.cc:14-24 | Each field of a version edit starts with its tag. |
| DiskFormats.NewFileFormat | messaging-app/Pods/leveldb-library/db/version_edit.cc:76-84 | A new file: its level, number and size, then its smallest and its largest key. |
| DiskFormats.EntryFormat | messaging-app/Pods/leveldb-library/table/block_builder.cc:90-99 | An entry of a block: the lengths of the shared prefix, of the rest of the key and of the value, then rest and value. |
| DiskFormats.MaskDigits | messaging-app/Pods/leveldb-library/util/crc32c.h:22-38 | A stored checksum is rotated right by fifteen bits, with 0xa282ead8 added. |
| DiskFormats.FooterFormat | messaging-app/Pods/leveldb-library/table/format.cc:31-40 | Two handles, zeros up to forty bytes, and the magic number, lowest digit first. |
| DiskFormats.FooterNeedsMagic | messaging-app/Pods/leveldb-library/table/format.cc:42-50 | A footer without these eight bytes is refused. |
| DiskFormats.TrailerFormat | messaging-app/Pods/leveldb-library/table/table_builder.cc:177-194 | A zero, and the checksum of block and zero, masked, lowest digit first. |
| TableBuilders.TableBuilder.Finish | messaging-app/Pods/leveldb-library/table/table_builder.cc:94-252 | The file holds data blocks that cut the added pairs in order, an index whose keys separate them, the filter of each block, and the footer; building fails only when all that weighs four gigabytes. |
| TableReaders.Table.InternalGet | messaging-app/Pods/leveldb-library/table/table.cc:216-244 | Reports the first pair at or after an internal key whenever it has that user key, and never another pair, by way of index, filter and block. |
| TableReaders.BuildAndGet | messaging-app/Pods/leveldb-library/table/table_builder.cc:94-252 | A table built of any sorted pairs, with any block size, restart interval and filter, and opened again, answers every key as the sorted pairs do; it is built unless pairs, index and filter weigh four gigabytes. |
| Coding.VarintRoundTrip | messaging-app/Pods/leveldb-library/util/coding.cc:81-157 | A number below 128^n takes at most n bytes and is read back, whatever follows it. |
| DiskFormats.VarintDigits | messaging-app/Pods/leveldb-library/util/coding.cc:47-90 | Each byte of a varint holds a digit to the base 128, all but the last with the high bit, and none is wasted. |
| DiskFormats.FixedDigits | messaging-app/Pods/leveldb-library/util/coding.cc:9-33 | Each byte of a fixed number is a digit to the base 256, lowest first. |
| Coding.GetVarint | messaging-app/Pods/leveldb-library/util/coding.cc:112-157 | Reads what the specification reads, with the bits beyond the word lost, and fails exactly where it does. |
| Coding.EncodeVarint32 | messaging-app/Pods/leveldb-library/util/coding.cc:47-73 | The unrolled branches write the varint of any 32-bit number, in at most five bytes. |
| Coding.EncodeVarint64 | messaging-app/Pods/leveldb-library/util/coding.cc:81-90 | The loop writes the varint of any 64-bit number. |
| HandleTables.HandleTable.FindPointer | messaging-app/Pods/leveldb-library/util/cache.cc:114-120 | The slot found by walking the chain of the bucket points to the entry of the key, or is where it would go. |
| HandleTables.HandleTable.Insert | messaging-app/Pods/leveldb-library/util/cache.cc:78-92 | The table agrees with the map updated at the key and returns the entry replaced, through every resize. |
| HandleTables.HandleTable.Remove | messaging-app/Pods/leveldb-library/util/cache.cc:94-104 | The table agrees with the map without the key and returns the entry that was there. |
| HandleTables.HandleTable.Resize | messaging-app/Pods/leveldb-library/util/cache.cc:122-146 | All entries move to a table of at least as many buckets, and the map stays. |
| LruCaches.LRUCache.Insert | messaging-app/Pods/leveldb-library/util/cache.cc:266-303 | The new entry replaces that of its key; then the oldest entries that no client uses leave until the rest fits; after it the usage is within the capacity or no entry is unused. |
| LruCaches.LRUCache.Lookup | messaging-app/Pods/leveldb-library/util/cache.cc:252-259 | Finds the entry of the key and adds a reference; an entry nobody used moves to the entries in use. |
| LruCaches.LRUCache.Release | messaging-app/Pods/leveldb-library/util/cache.cc:225-264 | A client's last reference moves the entry to the newest end of the LRU list, or deletes it if the cache has dropped it. |
| LruCaches.LRUCache.Erase | messaging-app/Pods/leveldb-library/util/cache.cc:307-321 | The entry of the key leaves table and list, and is deleted at once if no client refers to it. |
| LruCaches.LRUCache.Prune | messaging-app/Pods/leveldb-library/util/cache.cc:323-333 | Exactly the entries that no client uses leave the cache and are deleted. |
| LruCaches.EvictedOldest | messaging-app/Pods/leveldb-library/util/cache.cc:293-300 | Only the oldest unused entries leave, and no more of them than have to. |
| CacheRuns.Run | messaging-app/Pods/leveldb-library/util/cache.cc:217-333 | Over every run of Insert, Lookup, Release, Erase and Prune, a lookup answers nothing or what was last inserted under its key and not erased; an entry was deleted, once, exactly if neither the cache nor a client refers to it; and what is in the cache, in which order, and whether a lookup finds an entry follows from command to command. |
| Wire.RoundTrip | messaging-app/Pods/nanopb/pb_encode.c:519-541 | For every descriptor with different nonzero field numbers (required, optional, repeated and union fields, messages in messages) and every message of its types that is encoded, decoding the bytes gives the message back if every string in it leaves room for its terminator, and nothing otherwise. |
| Wire.FullString | messaging-app/Pods/nanopb/pb_encode.c:864-888 | A finding. A string that fills its field to the last character is encoded, but the decoder, which asks for room for the terminator (`pb_decode.c:1478-1496`), refuses it. |
| Wire.SendAndReceive | messaging-app/Pods/nanopb/pb_encode.c:558-567 | The sizing pass, encoding into a buffer and decoding from it: the message comes back exactly if the size fits into the buffer and its strings are terminated. |
| Encoders.EncodeMessage | messaging-app/Pods/nanopb/pb_encode.c:519-541 | A stream takes a message exactly if no byte field and no array is too full and its bytes fit; it then has exactly the bytes that the descriptor says, and a counting stream counts as many; `Formats` says that every reader finds its way through them. |
| Encoders.EncodeSubmessage | messaging-app/Pods/nanopb/pb_encode.c:708-756 | The two passes over a message inside a message write its size and its bytes, and never find that the size has changed. |
| Encoders.EncodePacked | messaging-app/Pods/nanopb/pb_encode.c:164-199 | A packed array is a tag, the size of all its items, found by counting or from the width, and the items. |
| Encoders.OStream.EncodeVarint | messaging-app/Pods/nanopb/pb_encode.c:599-619 | The loop writes the varint of the value, all of it or, when the stream is full, fails. |
| Decoders.DecodeMessage | messaging-app/Pods/nanopb/pb_decode.c:1075-1087 | Any bytes are decoded as the specification of the format says, errors included; what that says of bytes that other writers wrote is in `Formats`. |
| Decoders.DecodeNoInit | messaging-app/Pods/nanopb/pb_decode.c:925-1073 | The loop over tags decodes what the rest of the stream decodes to from the message so far, and fails exactly when that is an error or a required field is missing. |
| Decoders.DecodeStaticField | messaging-app/Pods/nanopb/pb_decode.c:406-480 | One field of any kind, packed arrays as far as there is room. |
| Decoders.IStream.DecodeVarint32 | messaging-app/Pods/nanopb/pb_decode.c:187-247 | The loop with sign extension and overflow checks reads what the specification reads, and fails where it does. |
| Decoders.FieldIter.FindTag | messaging-app/Pods/nanopb/pb_common.c:78-97 | The search that goes on from the last field and wraps around finds the field with the number if there is one. |
| Wire.Varint32Reads | messaging-app/Pods/nanopb/pb_decode.c:187-247 | The 32-bit reader reads back every varint below 2^32, whatever follows it. |
| Bounds.DecodedHolds | messaging-app/Pods/nanopb/pb_decode.c:1075-1087 | Whatever bytes are decoded, the message fits its struct: arrays within their size, bytes and strings within their room, numbers within their width, at most one member of a union. |
| Formats.UnknownSkipped | messaging-app/Pods/nanopb/pb_decode.c:321-331 | A record with a number that the message type does not have (any varint, any eight bytes, any length and as many bytes, any four bytes) makes no difference to what the rest decodes to. |
| Formats.UnknownIgnored | messaging-app/Pods/nanopb/pb_decode.c:970-987 | A message with such records anywhere in it decodes to what it decodes to without them. |
| Formats.MessageDecodes | messaging-app/Pods/nanopb/pb_decode.c:925-1073 | Records written by any writer decode to what they make of the default message one after the other, or to nothing if one of them does not fit or a required field has none. |
| Formats.MissingRequired | messaging-app/Pods/nanopb/pb_decode.c:1043-1070 | Without a record of some required field, of those the decoder keeps track of, the message is refused. |
| Formats.AnyOrder | messaging-app/Pods/nanopb/pb_decode.c:925-1041 | Records of different fields may change places anywhere in a message, unless both belong to one union. |
| Formats.ArrayInPieces | messaging-app/Pods/nanopb/pb_decode.c:424-464 | Single items and packed stretches of an array mix, in order, as far as there is room. |
| Formats.MessageInPieces | messaging-app/Pods/nanopb/pb_decode.c:1503-1525 | A second occurrence of an optional message merges into the first; each of them needs the required fields. |
| Formats.LastMemberStays | messaging-app/Pods/nanopb/pb_decode.c:466-475 | The last of several members of a union stays. |
| Formats.ValueSkipped | messaging-app/Pods/nanopb/pb_encode.c:660-700 | Every encoded value, read by its wire type alone (a varint to its last byte, eight bytes, a length and that many, four bytes), leaves exactly what follows it. |
| Formats.OlderReader | messaging-app/Pods/nanopb/pb_encode.c:199-300 | An encoded message decodes under a message type with some of its fields, or none, to exactly these. |
| Formats.NumbersAre | messaging-app/Pods/nanopb/pb_encode.c:621-630 | Signed values count up from zero in turns; negative ones of plain fields count down from 2^64. |

## Left out

- Reopening.Open: that the manifest leads to the version at the crash, and notes a last sequence number past what is stored and a file number past the tables, is asked for; `Manifest.VersionSet` proves it of the edits it logs, but database and manifest do not run together. The edit with the new tables is not logged, the file numbers of logs are not counted, and the last log is never reused.
- Reopening.ReplayLog: where the memtable is found full is a parameter, any set of sequence numbers, of which the ends of batches are one.
- Joint.RunBoth: sequence numbers start from 1, so the write queue of a database that was opened after a crash is not part of a run; the database itself goes on as in `Runs.Step`.
- Logs.LogReader.ReadRecord: of bytes that no writer wrote it says only that nothing unsound is returned, not what is skipped and reported; nor does it say anything of a reader that starts at an initial offset.
- Runs.Run: commands are the sections of the database that hold its lock; a flush during a running compaction (`db/db_impl.cc:908-918`) is not one of them, a compaction can only be followed by its installation or by reads and writes.
- Db.DB.NewIterator: an iterator captures the memtable as it is when it is made, so it does not show the entries that are added to the skip list later, which are all too new for it.
- User keys of the store are real numbers, of which only the order is used; the forms on disk have byte strings, and `Recovery.Meaning` maps one to the other.
- The size of a table is a parameter, any function of its entries; file numbers of the outputs of a compaction are taken when it is installed.
- Sequence numbers do not run out: a write that would pass the last one is skipped.
- I/O errors, background errors, write slowdowns and stops, and obsolete file deletion.
- When an iterator samples a read is random in LevelDB; `Runs.Sample` may come at any time with any key.
- Corrupt keys and blocks: the readers of tables and manifests are stated on what their writers write, cut short where a crash can cut it; checksums are any step function over bytes.
- Reuse of logs and manifests, and the loss of all unsynced bytes being in order within one file.
- A memory order weaker than one step after another in the skip list.
- Merging iterators over no or one child, which LevelDB replaces by simpler ones, and children that share a key.
- Snappy compression, the block cache in front of table reads, approximate offsets and sizes, properties.
- Cache sharding, identifiers for clients, and the destructor of the cache.
- The snapshot list is a sequence, in place of a circular list.
- Wire.RoundTrip: asks that lengths inside a message take 32 bits and field numbers 29, which structs and descriptors of the sizes nanopb supports do.
- nanopb's struct is a value that the decoder passes on, in place of memory written in place; what a failed decoding leaves in it is not part of this model.
- nanopb's callbacks, extensions, pointer fields with allocation, optional fields without a flag, repeated fields without a count, and streams other than buffers; `pb_size_t` has 32 bits, and the bit position of the 32-bit reader eight.
- The app's own code, and the other libraries it carries.
