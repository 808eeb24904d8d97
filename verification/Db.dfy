/** The database (db_impl.cc): every operation keeps the invariant, and as long as every
    compaction was safe each read answers as the plain map of the writes would. */
module Db {
  import opened Keys
  import opened History
  import opened Files
  import opened Compactions
  import opened CompactionWork
  import opened Lsm
  import opened Install
  import opened Reads
  import opened Merger
  import opened DbIter
  import opened Stores
  import opened Steps
  import opened Core
  import opened Alone

  datatype WriteOp = Put(key: UserKey, value: Value) | Delete(key: UserKey)

  /** The entry that an operation of a batch becomes. */
  function ToEntry(op: WriteOp, sequence: SequenceNumber): Entry {
    match op
    case Put(k, v) => Entry(InternalKey(k, sequence, TypeValue), v)
    case Delete(k) => Entry(InternalKey(k, sequence, TypeDeletion), "")
  }

  /** The entries of a batch, numbered from `first` on. */
  function ToEntries(batch: seq<WriteOp>, first: nat): (es: seq<Entry>)
    requires first + |batch| <= MAX_SEQUENCE + 1
    ensures |es| == |batch|
  {
    if batch == [] then [] else
    ToEntries(batch[..|batch| - 1], first) + [ToEntry(batch[|batch| - 1], first + |batch| - 1)]
  }

  /** A manual compaction of the part of a level within a range. */
  datatype Manual = Manual(level: nat, begin: Bound, end: Bound)

  ghost predicate NothingInRange(v: Version, m: Manual) {
    m.level < |v| && forall f :: f in v[m.level] ==> !Overlaps(f, m.begin, m.end)
  }

  /** No level is over its limit, and no file has been offered for compaction. */
  ghost predicate NothingToPick(v: Version, seekFile: Option<SeekFile>) {
    |v| == NUM_LEVELS && seekFile.None? && forall l :: 0 <= l < NUM_LEVELS - 1 ==> Score(v, l) < 1.0
  }

  /** What a round of background work is about: for a manual compaction the files of the
      level within the range, otherwise what PickCompaction chooses; none if there is nothing. */
  ghost predicate Choice(options: Options, v: Version, pointers: seq<Option<InternalKey>>, seekFile: Option<SeekFile>,
                         manual: Option<Manual>, c: Option<Inputs>)
  {
    && |v| == NUM_LEVELS && |pointers| == NUM_LEVELS && (c.Some? ==> InputsOk(v, c.value) && c.value.level + 1 < NUM_LEVELS)
    && if manual.Some? then
         && (c.None? <==> NothingInRange(v, manual.value))
         && (c.Some? ==> c.value.level == manual.value.level && TakesRange(options, v, manual.value.begin, manual.value.end, c.value))
       else
         && (c.None? <==> NothingToPick(v, seekFile))
         && (c.Some? ==> Picks(options, v, pointers, seekFile, c.value))
  }

  /** The inputs a round of background work starts from. */
  method SelectInputs(options: Options, v: Version, pointers: seq<Option<InternalKey>>, seekFile: Option<SeekFile>,
                      manual: Option<Manual>)
    returns (c: Option<Inputs>)
    requires LevelsOk(v) && |pointers| == NUM_LEVELS && SeekFileOk(v, seekFile)
    requires manual.Some? ==> manual.value.level + 1 < NUM_LEVELS
    ensures Choice(options, v, pointers, seekFile, manual, c)
  {
    hide InputsOk, Score, Overlaps, SeekFileOk, Picks, TakesRange, DisjointSorted, AllInOrder;
    if manual.Some? {
      c := CompactRange(options, v, manual.value.level, manual.value.begin, manual.value.end);
    } else {
      c := PickCompaction(options, v, pointers, seekFile);
    }
    if c.Some? {
      ChosenLevels(v, c.value);
    }
  }

  lemma ChosenLevels(v: Version, c: Inputs)
    requires InputsOk(v, c)
    ensures c.level + 1 < NUM_LEVELS
  {
  }

  function SeeksLeft(allowedSeeks: map<nat, int>, number: nat): int {
    if number in allowedSeeks then allowedSeeks[number] else 0
  }

  /** A charged file loses one of its seeks; it is offered for compaction when none is left
      and no other file is offered. */
  function AfterCharge(seekFile: Option<SeekFile>, allowedSeeks: map<nat, int>, charged: Option<SeekFile>)
    : (Option<SeekFile>, map<nat, int>)
  {
    if charged.None? then (seekFile, allowedSeeks) else
    var n := charged.value.file.number;
    var left := SeeksLeft(allowedSeeks, n) - 1;
    (if seekFile.None? && left <= 0 then charged else seekFile, allowedSeeks[n := left])
  }

  /** The seeks a new file is allowed before it is offered for compaction: one for every
      sixteen kilobytes, and a hundred at least. */
  function InitialSeeks(size: nat): (n: int)
    ensures n >= 100 && size < 0x4000 * (n + 1) && (n > 100 ==> 0x4000 * n <= size)
  {
    if size / 16384 < 100 then 100 else size / 16384
  }

  /** New files start with their seeks; the others keep what they have. */
  function WithSeeks(allowedSeeks: map<nat, int>, newFiles: seq<(nat, FileMeta)>): map<nat, int> {
    if newFiles == [] then allowedSeeks else
    var f := newFiles[|newFiles| - 1].1;
    WithSeeks(allowedSeeks, newFiles[..|newFiles| - 1])[f.number := InitialSeeks(f.size)]
  }

  lemma WithSeeksNext(allowedSeeks: map<nat, int>, newFiles: seq<(nat, FileMeta)>, i: nat)
    requires i < |newFiles|
    ensures var f := newFiles[i].1;
            WithSeeks(allowedSeeks, newFiles[..i + 1]) == WithSeeks(allowedSeeks, newFiles[..i])[f.number := InitialSeeks(f.size)]
  {
    assert newFiles[..i + 1][..i] == newFiles[..i];
  }

  lemma OneFileSeeks(allowedSeeks: map<nat, int>, file: (nat, FileMeta))
    ensures WithSeeks(allowedSeeks, [file]) == allowedSeeks[file.1.number := InitialSeeks(file.1.size)]
  {
    assert [file][..0] == [];
  }

  // ------------------------------------------------------------------ what background work does

  /** The state of a database; `merged` are the merged inputs of the running compaction. */
  datatype State = State(mem: seq<Entry>, imm: Option<seq<Entry>>, tables: Tables, version: Version, snapshots: seq<SequenceNumber>,
                         lastSequence: SequenceNumber, nextFileNumber: nat, pointers: seq<Option<InternalKey>>,
                         seekFile: Option<SeekFile>, allowedSeeks: map<nat, int>, running: Option<Running>, merged: seq<Entry>)

  /** The state of a new database. */
  function NewState(): State {
    State([], None, map[], seq(NUM_LEVELS, _ => []), [], 0, 1, seq(NUM_LEVELS, _ => None), None, map[], None, [])
  }

  function OldestReader(s: State): SequenceNumber {
    if s.snapshots == [] then s.lastSequence else s.snapshots[0]
  }

  /** The immutable memtable becomes a table file, or nothing if it is empty. */
  ghost predicate Flushes(options: Options, fileSize: seq<Entry> -> nat, s: State, t: State)
    requires s.imm.Some?
  {
    var r, n := s.imm.value, s.nextFileNumber;
    if r == [] then t == s.(imm := None, nextFileNumber := n + 1, seekFile := None)
    else
      && t == s.(imm := None, tables := s.tables[n := r], version := t.version, nextFileNumber := n + 1, seekFile := None,
                 allowedSeeks := s.allowedSeeks[n := InitialSeeks(fileSize(r))])
      && Flushed(options, s.version, OutputMeta(r, n, fileSize(r)), t.version)
  }

  /** The single input file stands on the next level, and no other file has changed its place. */
  ghost predicate Sinks(s: State, c: Inputs, t: State) {
    && |c.inputs0| == 1 && Sunk(s.version, t.version, c, c.inputs0)
    && t == s.(version := t.version, seekFile := None,
               allowedSeeks := s.allowedSeeks[c.inputs0[0].number := InitialSeeks(c.inputs0[0].size)])
  }

  /** A compaction of the inputs is running, for the readers there are now, and its outputs
      are cut where they have to be. */
  ghost predicate Starts(options: Options, fileSize: seq<Entry> -> nat, s: State, c: Inputs, t: State) {
    && t == s.(running := t.running, merged := t.merged) && t.running.Some?
    && t.running.value.inputs == c && t.running.value.smallestSnapshot == OldestReader(s)
    && CutWhereDue(options, c.grandparents, t.merged, fileSize, t.running.value.outputs)
  }

  /** One round of background work: a pending memtable first; otherwise the inputs chosen
      sink, if they are one file that can, or their compaction starts; and the level's
      compaction pointer moves on. */
  ghost predicate Round(options: Options, fileSize: seq<Entry> -> nat, s: State, manual: Option<Manual>, c: Option<Inputs>, t: State) {
    if s.imm.Some? then c.None? && Flushes(options, fileSize, s, t)
    else
      && Choice(options, s.version, s.pointers, s.seekFile, manual, c)
      && if c.None? then t == s else
         var s' := s.(pointers := s.pointers[c.value.level := Some(c.value.pointer)]);
         if manual.None? && IsTrivialMove(options, c.value) then Sinks(s', c.value, t)
         else Starts(options, fileSize, s', c.value, t)
  }

  /** The outputs of the running compaction replace its inputs. */
  ghost predicate Installs(fileSize: seq<Entry> -> nat, s: State, t: State)
    requires s.running.Some?
  {
    var r := s.running.value;
    && t == s.(running := None, tables := t.tables, version := t.version, nextFileNumber := s.nextFileNumber + |r.outputs|,
               seekFile := None, allowedSeeks := t.allowedSeeks)
    && Installed(s.tables, s.version, s.nextFileNumber, r, fileSize, t.tables, t.version)
    && exists outs ::
         && InstalledAs(s.version, s.nextFileNumber, r, fileSize, t.tables, t.version, outs)
         && t.allowedSeeks == WithSeeks(s.allowedSeeks, CompactionEdit(r.inputs, outs).newFiles)
  }

  lemma InstallsBy(fileSize: seq<Entry> -> nat, s: State, t: State, outs: seq<FileMeta>)
    requires s.running.Some?
    requires Installed(s.tables, s.version, s.nextFileNumber, s.running.value, fileSize, t.tables, t.version)
    requires InstalledAs(s.version, s.nextFileNumber, s.running.value, fileSize, t.tables, t.version, outs)
    requires t == s.(running := None, tables := t.tables, version := t.version,
                     nextFileNumber := s.nextFileNumber + |s.running.value.outputs|, seekFile := None,
                     allowedSeeks := WithSeeks(s.allowedSeeks, CompactionEdit(s.running.value.inputs, outs).newFiles))
    ensures Installs(fileSize, s, t)
  {
    hide Installed, InstalledAs, WithSeeks, CompactionEdit;
  }

  class DB {
    const options: Options
    const fileSize: seq<Entry> -> nat           // the size of the table file made of some entries
    var mem: seq<Entry>
    var imm: Option<seq<Entry>>
    var tables: Tables
    var version: Version
    var snapshots: seq<SequenceNumber>          // oldest first
    var lastSequence: SequenceNumber
    var nextFileNumber: nat
    var compactPointer: seq<Option<InternalKey>>
    var seekFile: Option<SeekFile>              // the version's file_to_compact
    var allowedSeeks: map<nat, int>             // by file number
    var running: Option<Running>
    ghost var writes: seq<Entry>                // every write so far
    ghost var safe: bool                        // every compaction so far was safe
    ghost var alone: bool                       // every compaction so far started without a snapshot
    ghost var merged: seq<Entry>                // the merged inputs of the running compaction

    ghost function TheStore(): Store
      reads this`mem, this`imm, this`tables, this`version
    {
      Store(mem, imm, tables, version)
    }

    ghost function Now(): State
      reads this`mem, this`imm, this`tables, this`version, this`snapshots, this`lastSequence, this`nextFileNumber,
            this`compactPointer, this`seekFile, this`allowedSeeks, this`running, this`merged
    {
      State(mem, imm, tables, version, snapshots, lastSequence, nextFileNumber, compactPointer, seekFile, allowedSeeks, running, merged)
    }

    /** The oldest sequence number a reader may use. */
    function Oldest(): SequenceNumber
      reads this`snapshots, this`lastSequence
    {
      if snapshots == [] then lastSequence else snapshots[0]
    }

    ghost predicate Valid()
      reads this
    {
      && |writes| == lastSequence < MAX_SEQUENCE
      && SnapshotsOk()
      && |compactPointer| == NUM_LEVELS
      && SeekFileOk(version, seekFile)
      && CoreOk(writes, TheStore(), nextFileNumber, running, merged, Oldest(), safe)
      && (alone ==> safe && AloneOk(version, running))
    }

    /** Snapshots are listed from oldest to newest, and none lies in the future. */
    ghost predicate SnapshotsOk()
      reads this`snapshots, this`lastSequence
    {
      && (forall i, j :: 0 <= i < j < |snapshots| ==> snapshots[i] <= snapshots[j])
      && (forall i :: 0 <= i < |snapshots| ==> snapshots[i] <= lastSequence)
    }

    lemma OldestIsPast()
      requires SnapshotsOk()
      ensures Oldest() <= lastSequence
    {
    }

    constructor (options: Options, fileSize: seq<Entry> -> nat)
      ensures Valid() && writes == [] && snapshots == [] && safe && alone
      ensures mem == [] && imm.None? && running.None? && tables == map[] && version == seq(NUM_LEVELS, _ => [])
      ensures lastSequence == 0 && nextFileNumber == 1 && this.options == options && this.fileSize == fileSize
      ensures Now() == NewState()
    {
      this.options, this.fileSize := options, fileSize;
      mem, imm, tables, version := [], None, map[], seq(NUM_LEVELS, _ => []);
      snapshots, lastSequence, nextFileNumber := [], 0, 1;
      compactPointer := seq(NUM_LEVELS, _ => None);
      seekFile, allowedSeeks, running := None, map[], None;
      writes, safe, alone, merged := [], true, true, [];
      CoreEmpty();
      AloneEmpty();
    }

    /** The database that DB::Open makes of tables: the memtables are empty, no snapshot is
        held and no compaction is running. */
    constructor Opened(options: Options, fileSize: seq<Entry> -> nat, tables: Tables, version: Version, nextFileNumber: nat,
                       lastSequence: SequenceNumber, pointers: seq<Option<InternalKey>>, allowedSeeks: map<nat, int>,
                       ghost h: seq<Entry>, ghost alone: bool)
      requires CoreOk(h, Store([], None, tables, version), nextFileNumber, None, [], |h|, true)
      requires |h| == lastSequence < MAX_SEQUENCE && |pointers| == NUM_LEVELS && (alone ==> AloneOk(version, None))
      ensures Valid() && writes == h && snapshots == [] && safe && this.alone == alone
      ensures mem == [] && imm.None? && running.None? && this.tables == tables && this.version == version
      ensures this.lastSequence == lastSequence && this.nextFileNumber == nextFileNumber && compactPointer == pointers
      ensures seekFile.None? && this.allowedSeeks == allowedSeeks && this.options == options && this.fileSize == fileSize
    {
      hide CoreOk, AloneOk;
      this.options, this.fileSize := options, fileSize;
      mem, imm, this.tables, this.version := [], None, tables, version;
      snapshots, this.lastSequence, this.nextFileNumber := [], lastSequence, nextFileNumber;
      compactPointer, seekFile, this.allowedSeeks, running := pointers, None, allowedSeeks, None;
      writes, safe, this.alone, merged := h, true, alone, [];
    }

    // ---------------------------------------------------------------- writing

    /** Applies a batch: its operations get consecutive sequence numbers, and readers
        see them only when the last sequence number moves past all of them. */
    method Write(batch: seq<WriteOp>)
      requires Valid() && lastSequence + |batch| < MAX_SEQUENCE
      modifies this`mem, this`lastSequence, this`writes
      ensures Valid()
      ensures lastSequence == old(lastSequence) + |batch|
      ensures writes == old(writes) + ToEntries(batch, old(lastSequence) + 1)
      ensures AllOf(mem) == old(AllOf(mem)) + AllOf(ToEntries(batch, old(lastSequence) + 1))
    {
      hide CoreOk, AloneOk, AllOf, InsertEntry, ToEntries;
      ghost var oldest, first, before := Oldest(), lastSequence + 1, AllOf(mem);
      NoEntries(first);
      for i := 0 to |batch|
        invariant |writes| == lastSequence + i
        invariant writes == old(writes) + ToEntries(batch[..i], first)
        invariant AllOf(mem) == before + AllOf(ToEntries(batch[..i], first))
        invariant CoreOk(writes, TheStore(), nextFileNumber, running, merged, oldest, safe)
      {
        var e := ToEntry(batch[i], lastSequence + 1 + i);
        NextEntry(batch, i, first);
        CoreWrite(writes, TheStore(), nextFileNumber, running, merged, oldest, safe, e);
        OneMoreEntry(writes, TheStore(), nextFileNumber, running, merged, oldest, safe, e);
        mem := InsertEntry(mem, e);
        writes := writes + [e];
      }
      assert batch[..|batch|] == batch;
      lastSequence := lastSequence + |batch|;
      CoreLater(writes, TheStore(), nextFileNumber, running, merged, oldest, Oldest(), safe);
    }

    /** The part of MakeRoomForWrite that switches to a new memtable; the new log takes
        a file number. */
    method SwitchMemTable()
      requires Valid() && imm.None?
      modifies this`mem, this`imm, this`nextFileNumber
      ensures Valid()
      ensures mem == [] && imm == Some(old(mem)) && nextFileNumber == old(nextFileNumber) + 1
    {
      hide CoreOk, AloneOk;
      CoreSwitch(writes, TheStore(), nextFileNumber, running, merged, Oldest(), safe);
      mem, imm := [], Some(mem);
      nextFileNumber := nextFileNumber + 1;
    }

    // ---------------------------------------------------------------- snapshots

    method GetSnapshot() returns (s: SequenceNumber)
      requires Valid()
      modifies this`snapshots
      ensures Valid()
      ensures s == lastSequence && snapshots == old(snapshots) + [s]
    {
      hide CoreOk, AloneOk;
      s := lastSequence;
      snapshots := snapshots + [s];
    }

    method ReleaseSnapshot(i: nat)
      requires Valid() && i < |snapshots|
      modifies this`snapshots
      ensures Valid()
      ensures snapshots == old(snapshots)[..i] + old(snapshots)[i + 1..]
    {
      hide CoreOk, AloneOk;
      ghost var oldest := Oldest();
      snapshots := snapshots[..i] + snapshots[i + 1..];
      CoreLater(writes, TheStore(), nextFileNumber, running, merged, oldest, Oldest(), safe);
    }

    // ---------------------------------------------------------------- reading

    /** A reader uses a snapshot it holds, or the last sequence number. */
    function ReadSequence(snapshot: Option<nat>): SequenceNumber
      requires snapshot.Some? ==> snapshot.value < |snapshots|
      reads this
    {
      if snapshot.Some? then snapshots[snapshot.value] else lastSequence
    }

    /** Get answers as the map left by the writes up to the reader's sequence number. */
    method Get(k: UserKey, snapshot: Option<nat>) returns (r: Option<Value>)
      requires Valid() && (snapshot.Some? ==> snapshot.value < |snapshots|)
      modifies this`seekFile, this`allowedSeeks
      ensures Valid()
      ensures r == Read(TheStore().Entries(), k, ReadSequence(snapshot))
      ensures safe ==> r == ReadAt(writes, k, ReadSequence(snapshot))
      ensures (seekFile, allowedSeeks) ==
                AfterCharge(old(seekFile), old(allowedSeeks), StoreCharge(TheStore(), k, ReadSequence(snapshot)))
    {
      hide CoreOk, AloneOk, AfterCharge, StoreCharge, InOrderStore, Store.Entries, Distinct, Read, ReadAt, Newest, SeekFileOk;
      var s := ReadSequence(snapshot);
      CoreAnswers(writes, TheStore(), nextFileNumber, running, merged, Oldest(), safe, s);
      var e, charged := StoreGet(writes, Store(mem, imm, tables, version), nextFileNumber, k, s);
      ReadIs(TheStore().Entries(), k, s, e);
      r := Shown(e);
      UpdateStats(charged);
    }

    /** Charges a seek to a file; a file without seeks left is offered for compaction,
        unless another file already is. */
    method UpdateStats(charged: Option<SeekFile>)
      requires Valid() && SeekFileOk(version, charged)
      modifies this`seekFile, this`allowedSeeks
      ensures Valid()
      ensures (seekFile, allowedSeeks) == AfterCharge(old(seekFile), old(allowedSeeks), charged)
    {
      hide CoreOk, AloneOk;
      if charged.Some? {
        var n := charged.value.file.number;
        allowedSeeks := allowedSeeks[n := SeeksLeft(allowedSeeks, n) - 1];
        if SeeksLeft(allowedSeeks, n) <= 0 && seekFile.None? {
          seekFile := charged;
        }
      }
    }

    /** An iterator samples the internal key it is at: the first of several files a read of
        that key may look into is charged. */
    method RecordReadSample(key: InternalKey)
      requires Valid()
      modifies this`seekFile, this`allowedSeeks
      ensures Valid()
      ensures (seekFile, allowedSeeks) == AfterCharge(old(seekFile), old(allowedSeeks), ChargeFor(version, key))
    {
      hide CoreOk, AloneOk, AfterCharge;
      LevelsAreOk();
      var charged := Lsm.RecordReadSample(version, key);
      ChargeForOk(version, key);
      UpdateStats(charged);
    }

    lemma LevelsAreOk()
      requires Valid()
      ensures LevelsOk(version)
    {
    }

    /** The iterator shows, in order, exactly the keys and values of the map left by the
        writes up to the reader's sequence number. */
    method NewIterator(snapshot: Option<nat>) returns (it: DBIter)
      requires Valid() && (snapshot.Some? ==> snapshot.value < |snapshots|)
      ensures fresh(it.Repr()) && it.Ok() && it.sequence == ReadSequence(snapshot)
      ensures Sorted(it.Contents()) && AllOf(it.Contents()) == TheStore().Entries()
      ensures safe ==> ShowsMap(it.TheView(), writes, it.sequence)
    {
      hide CoreOk, AloneOk, InOrderStore, Distinct, Read, ReadAt, MergingIterator.Ok, View, Sorted, SeekFileOk;
      var s := ReadSequence(snapshot);
      CoreAnswers(writes, TheStore(), nextFileNumber, running, merged, Oldest(), safe, s);
      var internal := NewInternalIterator(writes, Store(mem, imm, tables, version), nextFileNumber);
      it := new DBIter(internal, s);
      if safe {
        ViewShowsMap(internal.contents, writes, s);
      }
    }

    // ---------------------------------------------------------------- background work

    /** Makes an edited version current: a new version has no file to compact, and new
        files start with their allowed seeks. */
    method LogAndApply(v': Version, newFiles: seq<(nat, FileMeta)>)
      modifies this`version, this`seekFile, this`allowedSeeks
      ensures version == v' && seekFile == None && allowedSeeks == WithSeeks(old(allowedSeeks), newFiles)
    {
      version, seekFile := v', None;
      for i := 0 to |newFiles|
        invariant version == v' && seekFile == None && allowedSeeks == WithSeeks(old(allowedSeeks), newFiles[..i])
      {
        WithSeeksNext(old(allowedSeeks), newFiles, i);
        var f := newFiles[i].1;
        allowedSeeks := allowedSeeks[f.number := InitialSeeks(f.size)];
      }
      assert newFiles[..|newFiles|] == newFiles;
    }

    /** Flushes the immutable memtable into a table file; an empty one leaves no file. */
    method CompactMemTable()
      requires Valid() && imm.Some? && running.None?
      modifies this`imm, this`tables, this`version, this`nextFileNumber, this`seekFile, this`allowedSeeks
      ensures Valid() && imm.None? && Flushes(options, fileSize, old(Now()), Now())
      ensures TheStore().Entries() == old(TheStore().Entries())
    {
      hide DB.Valid, Store.Entries, Flushed;
      if imm.value == [] {
        DropEmptyMemTable();
      } else {
        FlushMemTable();
      }
    }

    method DropEmptyMemTable()
      requires Valid() && imm == Some([]) && running.None?
      modifies this`imm, this`version, this`nextFileNumber, this`seekFile, this`allowedSeeks
      ensures Valid() && Now() == old(Now()).(imm := None, nextFileNumber := old(nextFileNumber) + 1, seekFile := None)
      ensures TheStore().Entries() == old(TheStore().Entries())
    {
      hide CoreOk, AloneOk, InOrderStore, Store.Entries, SnapshotsOk;
      ghost var st, next := TheStore(), nextFileNumber;
      CoreParts(writes, st, next, running, merged, Oldest(), safe);
      CoreEmptyFlush(writes, st, next, merged, Oldest(), safe);
      EmptyFlushKeeps(writes, st, next);
      LogAndApply(version, []);
      imm := None;
      nextFileNumber := nextFileNumber + 1;
    }

    /** WriteLevel0Table and the version edit that adds its file. */
    method FlushMemTable()
      requires Valid() && imm.Some? && imm.value != [] && running.None?
      modifies this`imm, this`tables, this`version, this`nextFileNumber, this`seekFile, this`allowedSeeks
      ensures Valid() && Flushes(options, fileSize, old(Now()), Now())
      ensures TheStore().Entries() == old(TheStore().Entries())
    {
      hide CoreOk, AloneOk, Store.Entries, SnapshotsOk, Flushed, SeekFileOk;
      NoSeekFile();
      var f, level, v' := WriteAndFlush(options, writes, Store(mem, imm, tables, version), nextFileNumber, merged, Oldest(), safe, fileSize);
      FinishFlush(v', level, f);
    }

    /** The file is in place, and the immutable memtable is gone. */
    method FinishFlush(v': Version, level: nat, f: FileMeta)
      requires imm.Some?
      modifies this`imm, this`tables, this`version, this`nextFileNumber, this`seekFile, this`allowedSeeks
      ensures Now() == old(Now()).(imm := None, tables := old(tables[nextFileNumber := imm.value]), version := v',
                                   nextFileNumber := old(nextFileNumber) + 1, seekFile := None,
                                   allowedSeeks := old(allowedSeeks)[f.number := InitialSeeks(f.size)])
    {
      OneFileSeeks(allowedSeeks, (level, f));
      tables, imm := tables[nextFileNumber := imm.value], None;
      nextFileNumber := nextFileNumber + 1;
      LogAndApply(v', [(level, f)]);
    }

    /** Chooses the inputs of the next compaction and moves the level's compaction pointer. */
    method ChooseInputs(manual: Option<Manual>) returns (c: Option<Inputs>)
      requires Valid() && (manual.Some? ==> manual.value.level + 1 < NUM_LEVELS)
      modifies this`compactPointer
      ensures Valid() && Choice(options, version, old(compactPointer), seekFile, manual, c)
      ensures c.Some? ==> InputsOk(version, c.value) && c.value.level < |old(compactPointer)|
      ensures compactPointer == if c.Some? then old(compactPointer)[c.value.level := Some(c.value.pointer)] else old(compactPointer)
    {
      hide CoreOk, AloneOk, InputsOk, LevelsOk, SnapshotsOk, InOrderStore, NothingInRange, NothingToPick, Picks, TakesRange;
      CoreParts(writes, TheStore(), nextFileNumber, running, merged, Oldest(), safe);
      c := SelectInputs(options, version, compactPointer, seekFile, manual);
      if c.Some? {
        InputsInLevels(version, c.value);
        compactPointer := compactPointer[c.value.level := Some(c.value.pointer)];
      }
    }

    /** Moves the single input file to the next level. */
    method MoveFile(c: Inputs)
      requires Valid() && running.None? && InputsOk(version, c) && IsTrivialMove(options, c)
      modifies this`version, this`seekFile, this`allowedSeeks
      ensures Valid() && Sinks(old(Now()), c, Now())
      ensures TheStore().Entries() == old(TheStore().Entries())
    {
      hide CoreOk, AloneOk, InOrderStore, Store.Entries, Edited, InputsOk, SnapshotsOk, Sunk;
      ghost var st, next := TheStore(), nextFileNumber;
      CoreParts(writes, st, next, running, merged, Oldest(), safe);
      IsMove(options, c);
      var v' := MoveToNextLevel(options, writes, Store(mem, imm, tables, version), nextFileNumber, c);
      CoreMove(writes, st, next, merged, Oldest(), safe, c, v');
      MoveAlone(writes, st, next, c, v');
      MoveKeeps(writes, st, next, c, v');
      MoveSinks(writes, st, next, c, v');
      OneFileSeeks(allowedSeeks, (c.level + 1, c.inputs0[0]));
      LogAndApply(v', MoveEdit(c).newFiles);
    }

    /** The first part of DoCompactionWork: fixes the oldest reader and merges the inputs. */
    method StartCompaction(c: Inputs)
      requires Valid() && running.None? && InputsOk(version, c)
      modifies this`running, this`merged, this`alone
      ensures Valid() && Starts(options, fileSize, old(Now()), c, Now())
      ensures alone == (old(alone) && snapshots == [])
    {
      hide CoreOk, AloneOk, InOrderStore, InputsOk, SnapshotsOk, RunningOk, CutWhereDue;
      OldestIsPast();
      ghost var st := TheStore();
      CoreParts(writes, st, nextFileNumber, running, merged, Oldest(), safe);
      var r;
      ghost var contents;
      r, contents := MergeInputs(options, writes, Store(mem, imm, tables, version), nextFileNumber, c, Oldest(), fileSize);
      CoreStart(writes, st, nextFileNumber, merged, Oldest(), safe, r, contents);
      alone := alone && snapshots == [];
      if alone {
        StartAlone(writes, st, r, contents, Oldest());
      }
      running, merged := Some(r), contents;
    }

    /** What has to hold of the running compaction for readers not to notice it. */
    ghost predicate RunningIsSafe()
      requires Valid() && running.Some?
      reads this
    {
      SafeCompaction(TheStore(), running.value.inputs, running.value.smallestSnapshot)
    }

    /** The last part of DoCompactionWork: the outputs replace the inputs.  Readers
        notice nothing exactly when the compaction is safe. */
    method InstallCompactionResults()
      requires Valid() && running.Some?
      modifies this`running, this`tables, this`version, this`nextFileNumber, this`seekFile, this`allowedSeeks, this`safe
      ensures Valid() && Installs(fileSize, old(Now()), Now())
      ensures safe == old(safe && RunningIsSafe())
      ensures TheStore().Entries() == old(AfterInstall(TheStore(), running.value, merged))
      ensures old(RunningIsSafe()) <==>
                SameReads(old(TheStore().Entries()), TheStore().Entries(), old(running.value.smallestSnapshot))
    {
      hide CoreOk, AloneOk, SafeCompaction, SameReads, Store.Entries, AfterInstall, Installed, SeekFileOk, SnapshotsOk, InputsOk,
        Installs, InstalledAs, WithSeeks, CompactionEdit;
      NoSeekFile();
      ghost var st, oldest := TheStore(), Oldest();
      var r := running.value;
      var t', outs, v' := WriteAndInstall(writes, Store(mem, imm, tables, version), nextFileNumber, r, merged, oldest, safe, fileSize);
      safe := safe && SafeCompaction(st, r.inputs, r.smallestSnapshot);
      ghost var s := Now();
      FinishCompaction(t', v', CompactionEdit(r.inputs, outs).newFiles);
      InstallsBy(fileSize, s, Now(), outs);
    }

    /** The outputs are in place, and nothing is running any more. */
    method FinishCompaction(t': Tables, v': Version, newFiles: seq<(nat, FileMeta)>)
      requires running.Some?
      modifies this`running, this`tables, this`version, this`nextFileNumber, this`seekFile, this`allowedSeeks
      ensures Now() == old(Now()).(running := None, tables := t', version := v', seekFile := None,
                                   nextFileNumber := old(nextFileNumber + |running.value.outputs|),
                                   allowedSeeks := WithSeeks(old(allowedSeeks), newFiles))
    {
      nextFileNumber := nextFileNumber + |running.value.outputs|;
      tables, running := t', None;
      LogAndApply(v', newFiles);
    }

    /** One round of background work: a pending memtable first; then a compaction of the
        chosen inputs is started, or, if they are one file that can just sink, this is
        done at once. */
    method BackgroundCompaction(manual: Option<Manual>) returns (done: bool, ghost c: Option<Inputs>)
      requires Valid() && running.None? && (manual.Some? ==> manual.value.level + 1 < NUM_LEVELS)
      modifies this`imm, this`tables, this`version, this`nextFileNumber, this`seekFile, this`allowedSeeks,
               this`compactPointer, this`running, this`merged, this`alone
      ensures Valid() && imm.None? && Round(options, fileSize, old(Now()), manual, c, Now())
      ensures done <==> old(imm).None? && c.None?
      ensures snapshots == [] ==> alone == old(alone)
      ensures TheStore().Entries() == old(TheStore().Entries())
    {
      hide CoreOk, AloneOk, Store.Entries, InputsOk, SnapshotsOk, SeekFileOk, NothingInRange, NothingToPick, Picks, TakesRange, Sunk,
        CutWhereDue, IsTrivialMove, Flushes, Sinks, Starts, Choice;
      done, c := false, None;
      if imm.Some? {
        CompactMemTable();
        return;
      }
      var inputs := ChooseInputs(manual);
      c := inputs;
      if inputs.None? {
        done := true;
      } else if manual.None? && IsTrivialMove(options, inputs.value) {
        MoveFile(inputs.value);
      } else {
        StartCompaction(inputs.value);
      }
    }
  }

  lemma NoEntries(first: nat)
    requires first <= MAX_SEQUENCE + 1
    ensures ToEntries([], first) == [] && AllOf([]) == {}
  {
  }

  lemma NextEntry(batch: seq<WriteOp>, i: nat, first: nat)
    requires i < |batch| && first + |batch| <= MAX_SEQUENCE + 1
    ensures var front, e := ToEntries(batch[..i], first), ToEntry(batch[i], first + i);
            ToEntries(batch[..i + 1], first) == front + [e] && AllOf(front + [e]) == AllOf(front) + {e}
  {
    assert batch[..i + 1][..i] == batch[..i];
  }

  /** One more entry in the memtable. */
  lemma OneMoreEntry(h: seq<Entry>, st: Store, next: nat, running: Option<Running>, contents: seq<Entry>, oldest: nat, safe: bool, e: Entry)
    requires CoreOk(h, st, next, running, contents, oldest, safe) && e.key.sequence == |h| + 1
    ensures AllOf(InsertEntry(st.mem, e)) == AllOf(st.mem) + {e}
  {
    hide InsertEntry, ReadsHistory, RunningOk, VersionOk, VersionWritten;
    InsertEntryOk(st.mem, e);
  }

  lemma NoSeekFile()
    ensures forall v :: SeekFileOk(v, None)
  {
  }

  /** The view holds each key of the map with its value, in increasing order of keys. */
  ghost predicate ShowsMap(view: seq<Entry>, h: seq<Entry>, s: SequenceNumber) {
    && (forall a, b :: 0 <= a < b < |view| ==> view[a].key.user < view[b].key.user)
    && (forall e :: e in view ==> ReadAt(h, e.key.user, s) == Some(e.value))
    && (forall k :: ReadAt(h, k, s).Some? ==> exists e :: e in view && e.key.user == k)
  }

  lemma ViewShowsMap(c: seq<Entry>, h: seq<Entry>, s: SequenceNumber)
    requires Sorted(c) && Distinct(AllOf(c))
    requires forall k :: Read(AllOf(c), k, s) == ReadAt(h, k, s)
    ensures ShowsMap(View(c, s), h, s)
  {
    ViewSorted(c, s);
    hide View, Read, ReadAt, Sorted, Distinct;
    forall k
      ensures ReadAt(h, k, s).Some? ==> exists e :: e in View(c, s) && e.key.user == k
      ensures forall e :: e in View(c, s) && e.key.user == k ==> ReadAt(h, k, s) == Some(e.value)
    {
      ViewIsRead(c, s, k);
    }
  }
}
