/** A run of the database that reads wrong: a compaction under a snapshot cuts a user key
    in two, and a later one drops a deletion while the value it deletes is left out. */
module Resurrecting {
  import opened Keys
  import opened History
  import opened Files
  import opened Compactions
  import opened CompactionWork
  import opened Lsm
  import opened Builders
  import opened Install
  import opened Reads
  import opened Boundary
  import opened Stores
  import opened Steps
  import opened Core
  import opened Alone
  import opened Db
  import Outputs
  import Runs

  /** Every entry weighs one, and an output is full with two of them. */
  const TINY := Options(2)

  function Count(r: seq<Entry>): nat {
    |r|
  }

  /** The first memtable: key 1, the deletion of key 2, and the value it deletes. */
  const FIRST: seq<Entry> := [WRITES[0], WRITES[2], WRITES[1]]

  // ------------------------------------------------------------------ sorted things are what they hold

  lemma {:induction false} SortedUnique(a: seq<Entry>, b: seq<Entry>)
    requires Sorted(a) && Sorted(b) && AllOf(a) == AllOf(b)
    ensures a == b
  {
    SortedHas(a, b);
    assert a != [] ==> a[0] in a;
    assert b != [] ==> b[0] in b;
    if a != [] && b != [] {
      FirstSame(a, b);
      RestSame(a, b);
      SortedUnique(a[1..], b[1..]);
      assert a == [a[0]] + a[1..] && b == [b[0]] + b[1..];
    }
  }

  lemma SortedHas(a: seq<Entry>, b: seq<Entry>)
    requires AllOf(a) == AllOf(b)
    ensures forall e :: e in a <==> e in b
  {
    assert forall e :: e in a <==> e in AllOf(a);
    assert forall e :: e in b <==> e in AllOf(b);
  }

  lemma FirstSame(a: seq<Entry>, b: seq<Entry>)
    requires Sorted(a) && Sorted(b) && a != [] && b != [] && forall e :: e in a <==> e in b
    ensures a[0] == b[0]
  {
    assert a[0] in a && b[0] in b;
    var i :| 0 <= i < |b| && b[i] == a[0];
    var j :| 0 <= j < |a| && a[j] == b[0];
    if i > 0 && j > 0 {
      assert Less(b[0].key, b[i].key) && Less(a[0].key, a[j].key);
      NotBoth(a[0].key, b[0].key);
    }
  }

  lemma NotBoth(a: InternalKey, b: InternalKey)
    ensures !(Less(a, b) && Less(b, a))
  {
  }

  lemma RestSame(a: seq<Entry>, b: seq<Entry>)
    requires Sorted(a) && Sorted(b) && a != [] && b != [] && a[0] == b[0] && forall e :: e in a <==> e in b
    ensures Sorted(a[1..]) && Sorted(b[1..]) && AllOf(a[1..]) == AllOf(b[1..])
  {
    assert a == [a[0]] + a[1..] && b == [b[0]] + b[1..];
    forall e
      ensures e in a[1..] <==> e in a && e != a[0]
      ensures e in b[1..] <==> e in b && e != b[0]
    {
      NotAgain(a, e);
      NotAgain(b, e);
    }
  }

  lemma NotAgain(a: seq<Entry>, e: Entry)
    requires Sorted(a) && a != []
    ensures e in a[1..] <==> e in a && e != a[0]
  {
    assert a == [a[0]] + a[1..];
    if e in a[1..] {
      var i :| 0 <= i < |a| - 1 && a[1..][i] == e;
      assert Less(a[0].key, a[i + 1].key);
    }
  }

  lemma {:induction false} FilesUnique(a: seq<FileMeta>, b: seq<FileMeta>)
    requires SortedFiles(a) && SortedFiles(b) && forall f :: f in a <==> f in b
    ensures a == b
  {
    assert a != [] ==> a[0] in a;
    assert b != [] ==> b[0] in b;
    if a != [] && b != [] {
      FirstFile(a, b);
      FilesAfter(a);
      FilesAfter(b);
      FilesUnique(a[1..], b[1..]);
      assert a == [a[0]] + a[1..] && b == [b[0]] + b[1..];
    }
  }

  lemma FirstFile(a: seq<FileMeta>, b: seq<FileMeta>)
    requires SortedFiles(a) && SortedFiles(b) && a != [] && b != [] && forall f :: f in a <==> f in b
    ensures a[0] == b[0]
  {
    assert a[0] in a && b[0] in b;
    var i :| 0 <= i < |b| && b[i] == a[0];
    var j :| 0 <= j < |a| && a[j] == b[0];
    SmallestFirst(b, i);
    SmallestFirst(a, j);
    NotBothWays(a[0], b[0]);
  }

  lemma SmallestFirst(a: seq<FileMeta>, i: nat)
    requires SortedFiles(a) && i < |a|
    ensures i == 0 || BySmallest(a[0], a[i])
  {
  }

  lemma NotBothWays(f: FileMeta, g: FileMeta)
    ensures !(BySmallest(f, g) && BySmallest(g, f))
  {
  }

  lemma FilesAfter(a: seq<FileMeta>)
    requires SortedFiles(a) && a != []
    ensures SortedFiles(a[1..]) && forall f :: f in a[1..] <==> f in a && f != a[0]
  {
    assert a == [a[0]] + a[1..];
    forall f | f in a[1..]
      ensures f != a[0]
    {
      var i :| 0 <= i < |a| - 1 && a[1..][i] == f;
      assert BySmallest(a[0], a[i + 1]);
    }
  }

  // ------------------------------------------------------------------ versions with files at two levels

  /** Files on levels 2 and 3 only. */
  ghost predicate TwoLevels(v: Version, upper: seq<FileMeta>, lower: seq<FileMeta>) {
    && |v| == NUM_LEVELS && v[2] == upper && v[3] == lower
    && v[0] == [] && v[1] == [] && v[4] == [] && v[5] == [] && v[6] == []
  }

  /** A flushed file that no file of the first three levels overlaps goes to level 2. */
  lemma FlushedToTwo(v: Version, lower: seq<FileMeta>, f: FileMeta, v': Version)
    requires TwoLevels(v, [], lower) && Flushed(TINY, v, f, v')
    requires !TooHeavy(TINY, v, 3, f.smallest.user, f.largest.user)
    ensures Edited(v, v', FileEdit({}, [(2, f)]))
  {
    hide Edited, TooHeavy;
    var level :| Picked(TINY, v, f.smallest.user, f.largest.user, level) && Edited(v, v', FileEdit({}, [(level, f)]));
    EmptyIsLight(v, f.smallest.user, f.largest.user);
  }

  lemma EmptyIsLight(v: Version, lo: UserKey, hi: UserKey)
    requires |v| == NUM_LEVELS && v[2] == []
    ensures !TooHeavy(TINY, v, 2, lo, hi)
  {
  }

  lemma FlushEdit(v: Version, lower: seq<FileMeta>, f: FileMeta, v': Version, l: nat, g: FileMeta)
    requires TwoLevels(v, [], lower) && Edited(v, v', FileEdit({}, [(2, f)])) && l < NUM_LEVELS
    ensures g in v'[l] <==> (l == 2 && g == f) || (l == 3 && g in lower)
  {
    hide SortedFiles;
    assert (l, g) in [(2, f)] <==> l == 2 && g == f;
    assert l == 0 || l == 1 || l == 2 || l == 3 || l == 4 || l == 5 || l == 6;
  }

  lemma OneFileSorted(f: FileMeta)
    ensures SortedFiles([f]) && SortedFiles([])
  {
  }

  lemma OtherLevelEmpty(v: Version, lower: seq<FileMeta>, f: FileMeta, v': Version, l: nat)
    requires TwoLevels(v, [], lower) && Edited(v, v', FileEdit({}, [(2, f)])) && l < NUM_LEVELS && l != 2 && l != 3
    ensures v'[l] == []
  {
    hide SortedFiles, TwoLevels;
    if |v'[l]| > 0 {
      FlushEdit(v, lower, f, v', l, v'[l][0]);
    }
  }

  lemma FlushLevels(v: Version, lower: seq<FileMeta>, f: FileMeta, v': Version)
    requires TwoLevels(v, [], lower) && Edited(v, v', FileEdit({}, [(2, f)])) && SortedFiles(lower)
    ensures TwoLevels(v', [f], lower)
  {
    hide SortedFiles;
    forall g
      ensures g in v'[2] <==> g in [f]
      ensures g in v'[3] <==> g in lower
    {
      FlushEdit(v, lower, f, v', 2, g);
      FlushEdit(v, lower, f, v', 3, g);
    }
    OneFileSorted(f);
    FilesUnique(v'[2], [f]);
    FilesUnique(v'[3], lower);
    OtherLevelEmpty(v, lower, f, v', 0);
    OtherLevelEmpty(v, lower, f, v', 1);
    OtherLevelEmpty(v, lower, f, v', 4);
    OtherLevelEmpty(v, lower, f, v', 5);
    OtherLevelEmpty(v, lower, f, v', 6);
  }

  // ------------------------------------------------------------------ the inputs of the two compactions

  lemma InputsAre(v: Version, lower: seq<FileMeta>, f: FileMeta, c: Inputs)
    requires TwoLevels(v, [f], lower) && InputsOk(v, c) && c.level == 2 && InOrder(f)
    ensures c.inputs0 == [f] && c.grandparents == []
    ensures c.inputs1 == Overlapping(lower, Some(f.smallest.user), Some(f.largest.user))
  {
    assert IsSlice(c.inputs0, v[2]);
    var a, b :| 0 <= a <= b <= |v[2]| && c.inputs0 == v[2][a..b];
    assert c.inputs0 == [f];
    NoFilesAre(c.grandparents);
    hide InputsOk, Overlapping;
    OneInput(v[3], f, c);
  }

  lemma NoFilesAre(files: seq<FileMeta>)
    requires forall f :: f !in files
    ensures files == []
  {
    SomeFile(files);
  }

  lemma SomeFile(files: seq<FileMeta>)
    ensures files != [] ==> exists f :: f in files
  {
    if files != [] {
      assert files[0] in files;
    }
  }

  lemma OneInput(next: seq<FileMeta>, f: FileMeta, c: Inputs)
    requires c.inputs0 == [f] && CoversNext(next, c.inputs0, c.inputs1) && InOrder(f)
    ensures c.inputs1 == Overlapping(next, Some(f.smallest.user), Some(f.largest.user))
  {
    hide Overlapping;
    assert f in [f];
  }

  // ------------------------------------------------------------------ what the compactions keep and how they cut it

  lemma DeletionStays(v: Version)
    requires |v| == NUM_LEVELS
    ensures Kept(FIRST, 2, v, 2, 3) == FIRST
  {
    assert Kept(FIRST, 2, v, 2, 0) == [];
    assert Kept(FIRST, 2, v, 2, 1) == [FIRST[0]];
    assert Kept(FIRST, 2, v, 2, 2) == [FIRST[0], FIRST[1]];
  }

  /** The merged inputs of the second compaction. */
  lemma DeletionGoes(v: Version, lower: seq<FileMeta>, upper: seq<FileMeta>)
    requires TwoLevels(v, upper, lower)
    ensures Kept(MERGED, 4, v, 2, 3) == [WRITES[3]]
  {
    NoneBelow(v, lower, upper);
    hide BaseLevel;
    assert Kept(MERGED, 4, v, 2, 0) == [];
    assert Kept(MERGED, 4, v, 2, 1) == [MERGED[0]];
    assert Kept(MERGED, 4, v, 2, 2) == [MERGED[0]];
  }

  lemma NoneBelow(v: Version, lower: seq<FileMeta>, upper: seq<FileMeta>)
    requires TwoLevels(v, upper, lower)
    ensures BaseLevel(v, 2, 2.0)
  {
    forall l | 4 <= l < NUM_LEVELS
      ensures v[l] == []
    {
      assert l == 4 || l == 5 || l == 6;
    }
  }

  /** Without grandparents nothing but its size ends an output. */
  lemma NothingStops(c: seq<Entry>, p: nat, q: nat)
    requires q < |c|
    ensures !StopBetween(TINY, [], c, p, q)
  {
    forall i | 0 <= i < |c|
      ensures !StopsAt(TINY, [], c, i)
    {
      assert WeightAt([], c[i].key) == 0 == WeightAt([], c[LastStop(TINY, [], c, i)].key);
    }
  }

  lemma TwoPieces()
    ensures var a := [[WRITES[0], WRITES[2]], [WRITES[1]]];
            CutWhereDue(TINY, [], FIRST, Count, a) && Flatten(a) == FIRST
  {
    var a := [[WRITES[0], WRITES[2]], [WRITES[1]]];
    forall p, q | 0 <= p < q < |FIRST|
      ensures !StopBetween(TINY, [], FIRST, p, q)
    {
      NothingStops(FIRST, p, q);
    }
    hide StopBetween;
    assert [WRITES[0], WRITES[2]][..1] == [WRITES[0]];
    assert a[..1] == [a[0]] && [a[0]][..0] == [];
    assert Flatten([]) == [] && Flatten([a[0]]) == a[0];
  }

  /** The three entries are cut after the second. */
  lemma CutInTwo(outputs: seq<seq<Entry>>)
    requires Flatten(outputs) == FIRST && CutWhereDue(TINY, [], FIRST, Count, outputs)
    ensures outputs == [[WRITES[0], WRITES[2]], [WRITES[1]]]
  {
    hide Flatten, CutWhereDue, Sorted;
    FirstSorted();
    TwoPieces();
    Outputs.CutsDetermined(TINY, [], FIRST, Count, outputs, [[WRITES[0], WRITES[2]], [WRITES[1]]]);
  }

  // ------------------------------------------------------------------ the run

  const FLUSHED := OutputMeta(FIRST, 2, 3)
  const FRONT := OutputMeta([WRITES[0], WRITES[2]], 3, 2)
  const BACK := OutputMeta([WRITES[1]], 4, 1)
  const NEWER := OutputMeta([WRITES[3]], 6, 1)

  /** Nothing in the memtables, and no compaction running. */
  ghost predicate Quiet(db: DB, next: nat, h: seq<Entry>, snapshots: seq<SequenceNumber>, upper: seq<FileMeta>, lower: seq<FileMeta>)
    reads db
  {
    && db.Valid() && db.options == TINY && db.fileSize == Count
    && db.mem == [] && db.imm.None? && db.running.None?
    && db.writes == h && db.lastSequence == |h| && db.snapshots == snapshots && db.nextFileNumber == next
    && TwoLevels(db.version, upper, lower)
  }

  lemma MemIsSorted(db: DB)
    requires db.Valid()
    ensures Sorted(db.mem)
  {
  }

  lemma WritesAre()
    ensures ToEntries([Put(1.0, "a"), Put(2.0, "x")], 1) == WRITES[..2]
    ensures ToEntries([Delete(2.0)], 3) == [WRITES[2]] && ToEntries([Put(1.0, "b")], 4) == [WRITES[3]]
    ensures WRITES[..2] + [WRITES[2]] == WRITES[..3] && WRITES[..3] + [WRITES[3]] == WRITES
  {
    assert [Put(1.0, "a"), Put(2.0, "x")][..1] == [Put(1.0, "a")];
    assert ToEntries([Put(1.0, "a")], 1) == [WRITES[0]];
  }

  lemma FirstIs(mem: seq<Entry>)
    requires Sorted(mem) && AllOf(mem) == AllOf(WRITES[..2]) + AllOf([WRITES[2]])
    ensures mem == FIRST
  {
    assert WRITES[..2] == [WRITES[0], WRITES[1]];
    assert AllOf(FIRST) == AllOf(WRITES[..2]) + AllOf([WRITES[2]]);
    SortedUnique(mem, FIRST);
  }

  /** Two writes, a snapshot and a deletion. */
  method WriteFirst() returns (db: DB)
    ensures fresh(db) && db.Valid() && db.options == TINY && db.fileSize == Count
    ensures db.mem == FIRST && db.imm.None? && db.running.None? && db.version == NO_FILES
    ensures db.writes == WRITES[..3] && db.lastSequence == 3 && db.snapshots == [2] && db.nextFileNumber == 1
  {
    hide DB.Valid, AllOf, Sorted;
    db := WriteTwo();
    DeleteTwo(db);
  }

  method WriteTwo() returns (db: DB)
    ensures fresh(db) && db.Valid() && db.options == TINY && db.fileSize == Count
    ensures AllOf(db.mem) == AllOf(WRITES[..2]) && db.imm.None? && db.running.None? && db.version == NO_FILES
    ensures db.writes == WRITES[..2] && db.lastSequence == 2 && db.snapshots == [] && db.nextFileNumber == 1
  {
    hide DB.Valid, AllOf, Sorted, ToEntries, TwoLevels, TooHeavy, SortedFiles;
    WritesAre();
    NothingYet();
    db := new DB(TINY, Count);
    db.Write([Put(1.0, "a"), Put(2.0, "x")]);
    assert {} + AllOf(WRITES[..2]) == AllOf(WRITES[..2]);
  }

  method DeleteTwo(db: DB)
    requires db.Valid() && AllOf(db.mem) == AllOf(WRITES[..2]) && db.writes == WRITES[..2] && db.lastSequence == 2 && db.snapshots == []
    modifies db`mem, db`lastSequence, db`writes, db`snapshots
    ensures db.Valid() && db.mem == FIRST && db.writes == WRITES[..3] && db.lastSequence == 3 && db.snapshots == [2]
  {
    hide DB.Valid, AllOf, Sorted, ToEntries;
    WritesAre();
    var s := db.GetSnapshot();
    db.Write([Delete(2.0)]);
    MemIsSorted(db);
    FirstIs(db.mem);
  }

  /** A memtable switch and a flush: the file goes to level 2. */
  method Flush(db: DB, ghost r: seq<Entry>, ghost f: FileMeta, ghost lower: seq<FileMeta>)
    requires db.Valid() && db.options == TINY && db.fileSize == Count && db.imm.None? && db.running.None?
    requires db.mem == r && r != [] && TwoLevels(db.version, [], lower) && SortedFiles(lower)
    requires f == OutputMeta(r, db.nextFileNumber + 1, |r|)
    requires !TooHeavy(TINY, db.version, 3, f.smallest.user, f.largest.user)
    modifies db`mem, db`imm, db`tables, db`version, db`nextFileNumber, db`seekFile, db`allowedSeeks,
             db`compactPointer, db`running, db`merged, db`alone
    ensures Quiet(db, old(db.nextFileNumber) + 2, db.writes, db.snapshots, [f], lower)
    ensures db.tables == old(db.tables)[f.number := r]
  {
    hide DB.Valid, Flushed, TwoLevels, TooHeavy, SortedFiles;
    Counted(db);
    db.SwitchMemTable();
    ghost var v := db.version;
    var done, _ := db.BackgroundCompaction(None);
    FlushedToTwo(v, lower, f, db.version);
    FlushLevels(v, lower, f, db.version);
  }

  lemma Counted(db: DB)
    requires db.Valid()
    ensures db.lastSequence == |db.writes|
  {
  }

  const NO_FILES: Version := seq(NUM_LEVELS, _ => [])

  lemma NothingYet()
    ensures AllOf([]) == {} && TwoLevels(NO_FILES, [], []) && SortedFiles([])
    ensures !TooHeavy(TINY, NO_FILES, 3, FLUSHED.smallest.user, FLUSHED.largest.user)
  {
  }

  /** What is known of a running compaction of a single file of level 2. */
  ghost predicate Merging(db: DB, f: FileMeta, lower: seq<FileMeta>)
    reads db
  {
    && db.Valid() && db.running.Some?
    && var r := db.running.value;
       && r.inputs.level == 2 && r.inputs.inputs0 == [f]
       && r.inputs.inputs1 == Overlapping(lower, Some(f.smallest.user), Some(f.largest.user))
       && r.smallestSnapshot == db.Oldest() && TwoLevels(db.version, [f], lower)
       && Sorted(db.merged) && AllOf(db.merged) == InputEntries(db.tables, r.inputs)
       && Flatten(r.outputs) == Kept(db.merged, r.smallestSnapshot, db.version, 2, |db.merged|)
       && CutWhereDue(TINY, [], db.merged, Count, r.outputs)
  }

  lemma RunningFacts(db: DB)
    requires db.Valid() && db.running.Some?
    ensures var r := db.running.value;
            && InputsOk(db.version, r.inputs) && |db.version| == NUM_LEVELS && r.inputs.level + 1 < NUM_LEVELS
            && Sorted(db.merged) && AllOf(db.merged) == InputEntries(db.tables, r.inputs)
            && Flatten(r.outputs) == Kept(db.merged, r.smallestSnapshot, db.version, r.inputs.level, |db.merged|)
  {
    hide InputsOk, Kept, Flatten, Sorted, InputEntries, VersionOk, VersionWritten, AloneOk, ReadsHistory, AboveVersion, Compacting;
    var r := db.running.value;
    assert Compacting(db.writes, db.tables, db.version, r.inputs, db.merged);
    CompactingFacts(db.writes, db.tables, db.version, r.inputs, db.merged);
  }

  lemma CompactingFacts(h: seq<Entry>, t: Tables, v: Version, c: Inputs, contents: seq<Entry>)
    requires Compacting(h, t, v, c, contents)
    ensures InputsOk(v, c) && |v| == NUM_LEVELS && c.level + 1 < NUM_LEVELS
    ensures Sorted(contents) && AllOf(contents) == InputEntries(t, c)
  {
  }

  lemma VersionFacts(db: DB)
    requires db.Valid()
    ensures VersionOk(db.tables, db.version)
  {
    hide VersionOk, AloneOk, ReadsHistory, RunningOk, AboveVersion, VersionWritten;
  }

  lemma FilesInOrder(t: Tables, v: Version, f: FileMeta, lower: seq<FileMeta>)
    requires VersionOk(t, v) && TwoLevels(v, [f], lower)
    ensures InOrder(f) && SortedFiles(lower) && Overlaps(f, None, None)
  {
    LevelsSorted(t, v);
    assert SortedFiles(v[3]) && DisjointSorted(v[2]) && f in v[2];
  }

  /** A manual compaction of level 2 is started. */
  method StartManual(db: DB, ghost f: FileMeta, ghost lower: seq<FileMeta>)
    requires Quiet(db, db.nextFileNumber, db.writes, db.snapshots, [f], lower)
    modifies db`imm, db`tables, db`version, db`nextFileNumber, db`seekFile, db`allowedSeeks,
             db`compactPointer, db`running, db`merged, db`alone
    ensures Merging(db, f, lower) && db.imm.None? && db.nextFileNumber == old(db.nextFileNumber)
    ensures db.tables == old(db.tables) && db.version == old(db.version)
  {
    hide DB.Valid, TwoLevels, InputsOk, Kept, Flatten, Sorted, InputEntries, Overlapping, CutWhereDue, TakesRange, VersionOk, InOrder, Overlaps;
    VersionFacts(db);
    FilesInOrder(db.tables, db.version, f, lower);
    SomethingInRange(db.version, f, lower);
    var done, _ := db.BackgroundCompaction(Some(Manual(2, None, None)));
    RunningFacts(db);
    InputsAre(db.version, lower, f, db.running.value.inputs);
  }

  lemma SomethingInRange(v: Version, f: FileMeta, lower: seq<FileMeta>)
    requires TwoLevels(v, [f], lower) && Overlaps(f, None, None)
    ensures !NothingInRange(v, Manual(2, None, None))
  {
    assert f in v[2];
  }

  /** The first compaction finds the whole first file and cuts it in two. */
  lemma CutApart(db: DB)
    requires Merging(db, FLUSHED, []) && db.Oldest() == 2 && Run(db.tables, FLUSHED) == FIRST
    ensures db.running.value.inputs.inputs1 == [] && db.running.value.outputs == [[WRITES[0], WRITES[2]], [WRITES[1]]]
  {
    hide DB.Valid, Sorted, Flatten, Kept, CutWhereDue;
    var r := db.running.value;
    FirstSorted();
    InputsHold(db.tables, r.inputs, FLUSHED);
    SortedUnique(db.merged, FIRST);
    DeletionStays(db.version);
    CutInTwo(r.outputs);
  }

  lemma FirstSorted()
    ensures Sorted(FIRST) && Sorted(MERGED)
  {
  }

  lemma InputsHold(t: Tables, c: Inputs, f: FileMeta)
    requires c.inputs0 == [f] && c.inputs1 == []
    ensures InputEntries(t, c) == AllOf(Run(t, f))
  {
    OneFileEntries(t, f);
    assert FilesEntries(t, []) == {};
  }

  /** The files and levels after it is installed. */
  lemma CutInstalled(t: Tables, v: Version, r: Running, t': Tables, v': Version)
    requires TwoLevels(v, [FLUSHED], []) && Installed(t, v, 3, r, Count, t', v')
    requires r.inputs.level == 2 && r.inputs.inputs0 == [FLUSHED] && r.inputs.inputs1 == []
    requires r.outputs == [[WRITES[0], WRITES[2]], [WRITES[1]]]
    ensures TwoLevels(v', [], [FRONT, BACK])
    ensures Run(t', FRONT) == [WRITES[0], WRITES[2]] && Run(t', BACK) == [WRITES[1]]
  {
    var outs := InstalledOuts(t, v, 3, r, t', v');
    assert outs == [FRONT, BACK];
    hide TwoLevels, SortedFiles, WrittenOut;
    SinksCut(v, r.inputs, v', outs);
  }

  lemma InstalledOuts(t: Tables, v: Version, next: nat, r: Running, t': Tables, v': Version) returns (outs: seq<FileMeta>)
    requires Installed(t, v, next, r, Count, t', v')
    ensures WrittenOut(r.outputs, next, t', outs) && Edited(v, v', CompactionEdit(r.inputs, outs))
    ensures |outs| == |r.outputs| && forall i :: 0 <= i < |outs| ==> outs[i].size == |r.outputs[i]|
  {
    hide Edited, WrittenOut, CompactionEdit;
    outs :| InstalledAs(v, next, r, Count, t', v', outs);
    WrittenCount(r.outputs, next, t', outs);
  }

  lemma WrittenCount(outputs: seq<seq<Entry>>, next: nat, t': Tables, outs: seq<FileMeta>)
    requires WrittenOut(outputs, next, t', outs)
    ensures |outs| == |outputs|
  {
  }

  lemma CutEdit(v: Version, c: Inputs, v': Version, outs: seq<FileMeta>, l: nat, g: FileMeta)
    requires TwoLevels(v, [FLUSHED], []) && Edited(v, v', CompactionEdit(c, outs)) && l < NUM_LEVELS
    requires c.level == 2 && c.inputs0 == [FLUSHED]
    ensures g in v'[l] <==> l == 3 && g in outs
  {
    EditParts(c, outs);
    hide SortedFiles, CompactionEdit;
    assert FLUSHED in c.inputs0;
    assert l == 0 || l == 1 || l == 2 || l == 3 || l == 4 || l == 5 || l == 6;
  }

  lemma CutElsewhere(v: Version, c: Inputs, v': Version, outs: seq<FileMeta>, l: nat)
    requires TwoLevels(v, [FLUSHED], []) && Edited(v, v', CompactionEdit(c, outs)) && l < NUM_LEVELS && l != 3
    requires c.level == 2 && c.inputs0 == [FLUSHED]
    ensures v'[l] == []
  {
    hide SortedFiles, TwoLevels, CompactionEdit;
    if |v'[l]| > 0 {
      CutEdit(v, c, v', outs, l, v'[l][0]);
    }
  }

  lemma SinksCut(v: Version, c: Inputs, v': Version, outs: seq<FileMeta>)
    requires TwoLevels(v, [FLUSHED], []) && Edited(v, v', CompactionEdit(c, outs)) && outs == [FRONT, BACK]
    requires c.level == 2 && c.inputs0 == [FLUSHED]
    ensures TwoLevels(v', [], [FRONT, BACK])
  {
    CutSorted();
    hide SortedFiles, CompactionEdit;
    forall g
      ensures g in v'[3] <==> g in [FRONT, BACK]
    {
      CutEdit(v, c, v', outs, 3, g);
    }
    FilesUnique(v'[3], [FRONT, BACK]);
    CutElsewhere(v, c, v', outs, 0);
    CutElsewhere(v, c, v', outs, 1);
    CutElsewhere(v, c, v', outs, 2);
    CutElsewhere(v, c, v', outs, 4);
    CutElsewhere(v, c, v', outs, 5);
    CutElsewhere(v, c, v', outs, 6);
  }

  lemma CutSorted()
    ensures SortedFiles([FRONT, BACK])
  {
  }

  // ------------------------------------------------------------------ the second compaction

  lemma FrontOverlaps()
    ensures Overlapping([FRONT, BACK], Some(NEWER.smallest.user), Some(NEWER.largest.user)) == [FRONT]
    ensures TotalFileSize([FRONT]) == 2
  {
    FirstOverlaps(FRONT, BACK, Some(1.0), Some(1.0));
    hide Overlapping;
    assert [FRONT][..0] == [];
  }

  lemma FirstOverlaps(f: FileMeta, g: FileMeta, lo: Bound, hi: Bound)
    requires Overlaps(f, lo, hi) && !Overlaps(g, lo, hi)
    ensures Overlapping([f, g], lo, hi) == [f]
  {
    hide Overlaps;
    assert [f, g][..1] == [f] && [f][..0] == [];
    assert Overlapping([], lo, hi) == [];
    assert Overlapping([f], lo, hi) == [f];
  }

  /** The second compaction finds the newer value of key 1 and the front half. */
  lemma MergesFront(db: DB)
    requires Merging(db, NEWER, [FRONT, BACK]) && db.Oldest() == 4
    requires Run(db.tables, NEWER) == [WRITES[3]] && Run(db.tables, FRONT) == [WRITES[0], WRITES[2]]
    ensures db.running.value.inputs.inputs1 == [FRONT] && db.merged == MERGED
    ensures Kept(db.merged, 4, db.version, 2, |db.merged|) == [WRITES[3]]
  {
    hide DB.Valid, Sorted, Flatten, Kept, CutWhereDue, TwoLevels;
    var r := db.running.value;
    FrontOverlaps();
    FirstSorted();
    BothInputsHold(db.tables, r.inputs);
    SortedUnique(db.merged, MERGED);
    DeletionGoes(db.version, [FRONT, BACK], [NEWER]);
  }

  lemma BothInputsHold(t: Tables, c: Inputs)
    requires c.inputs0 == [NEWER] && c.inputs1 == [FRONT]
    requires Run(t, NEWER) == [WRITES[3]] && Run(t, FRONT) == [WRITES[0], WRITES[2]]
    ensures InputEntries(t, c) == AllOf(MERGED)
  {
    OneFileEntries(t, NEWER);
    OneFileEntries(t, FRONT);
    hide FilesEntries, Run;
    forall e
      ensures e in InputEntries(t, c) <==> e in AllOf(MERGED)
    {
    }
  }

  lemma OneFileEntries(t: Tables, f: FileMeta)
    ensures FilesEntries(t, [f]) == AllOf(Run(t, f))
  {
    assert f in [f];
  }

  /** Only the back half stays. */
  lemma BackStays(st: Store, c: Inputs)
    requires st.mem == [] && st.imm.None? && TwoLevels(st.version, [NEWER], [FRONT, BACK])
    requires c.level == 2 && c.inputs0 == [NEWER] && c.inputs1 == [FRONT] && Run(st.tables, BACK) == [WRITES[1]]
    ensures Elsewhere(st, c) == {WRITES[1]}
  {
    hide StayingEntries, TwoLevels;
    forall e
      ensures e in StayingEntries(st.tables, st.version, c) <==> e == WRITES[1]
    {
      BackOnly(st.tables, st.version, c, e);
    }
  }

  lemma BackOnly(t: Tables, v: Version, c: Inputs, e: Entry)
    requires TwoLevels(v, [NEWER], [FRONT, BACK]) && c.level == 2 && c.inputs0 == [NEWER] && c.inputs1 == [FRONT]
    requires Run(t, BACK) == [WRITES[1]]
    ensures e in StayingEntries(t, v, c) <==> e == WRITES[1]
  {
    hide StayingEntries, TwoLevels, Run;
    assert e == WRITES[1] <==> e in Run(t, BACK);
    if e in StayingEntries(t, v, c) {
      var l, f := StayingFile(t, v, c, e);
      StaysIsBack(v, c, l, f);
    }
    if e in Run(t, BACK) {
      BackIsThere(t, v, c, e);
    }
  }

  lemma BackIsThere(t: Tables, v: Version, c: Inputs, e: Entry)
    requires TwoLevels(v, [NEWER], [FRONT, BACK]) && c.level == 2 && c.inputs0 == [NEWER] && c.inputs1 == [FRONT] && e in Run(t, BACK)
    ensures e in StayingEntries(t, v, c)
  {
    assert BACK in v[3] && Stays(v, c, 3, BACK);
  }

  lemma StaysIsBack(v: Version, c: Inputs, l: nat, f: FileMeta)
    requires TwoLevels(v, [NEWER], [FRONT, BACK]) && c.level == 2 && c.inputs0 == [NEWER] && c.inputs1 == [FRONT]
    requires l < |v| && Stays(v, c, l, f)
    ensures f == BACK
  {
    assert l == 0 || l == 1 || l == 2 || l == 3 || l == 4 || l == 5 || l == 6;
    assert NEWER in c.inputs0 && FRONT in c.inputs1;
  }

  /** The old value of key 2 is back. */
  lemma ValueIsBack()
    ensures Read({WRITES[1]} + AllOf([WRITES[3]]), 2.0, 4) == Some("x") && ReadAt(WRITES, 2.0, 4) == None
  {
    var es := {WRITES[1]} + AllOf([WRITES[3]]);
    assert Newest(es, 2.0, 4, Some(WRITES[1]));
    ReadIs(es, 2.0, 4, Some(WRITES[1]));
    DeletedRead();
  }

  // ------------------------------------------------------------------ the whole run

  /** The commands of the run. */
  const LOSING: seq<Runs.Command> := [
    Runs.Apply([Put(1.0, "a"), Put(2.0, "x")]), Runs.TakeSnapshot, Runs.Apply([Delete(2.0)]),
    Runs.NewMemTable, Runs.Background(None), Runs.Background(Some(Manual(2, None, None))), Runs.Install, Runs.DropSnapshot(0),
    Runs.Apply([Put(1.0, "b")]),
    Runs.NewMemTable, Runs.Background(None), Runs.Background(Some(Manual(2, None, None))), Runs.Install,
    Runs.Lookup(2.0, None)]

  method CompactFirst(db: DB)
    requires Quiet(db, 3, WRITES[..3], [2], [FLUSHED], []) && Run(db.tables, FLUSHED) == FIRST
    modifies db
    ensures Quiet(db, 5, WRITES[..3], [2], [], [FRONT, BACK])
    ensures Run(db.tables, FRONT) == [WRITES[0], WRITES[2]] && Run(db.tables, BACK) == [WRITES[1]]
  {
    hide DB.Valid, TwoLevels, Sorted, Flatten, Kept, CutWhereDue, CutFacts;
    StartManual(db, FLUSHED, []);
    CutReady(db);
    InstallFirst(db);
  }

  method InstallFirst(db: DB)
    requires db.Valid() && db.options == TINY && db.fileSize == Count && db.mem == [] && db.imm.None?
    requires db.running.Some? && CutFacts(db.tables, db.version, db.running.value) && |db.running.value.outputs| == 2
    requires db.nextFileNumber == 3
    modifies db`running, db`tables, db`version, db`nextFileNumber, db`seekFile, db`allowedSeeks, db`safe
    ensures Quiet(db, 5, db.writes, db.snapshots, [], [FRONT, BACK])
    ensures Run(db.tables, FRONT) == [WRITES[0], WRITES[2]] && Run(db.tables, BACK) == [WRITES[1]]
  {
    hide DB.Valid, TwoLevels, Installed, AfterInstall, CutFacts, SameReads;
    Counted(db);
    ghost var t, v, r := db.tables, db.version, db.running.value;
    db.InstallCompactionResults();
    FromCut(t, v, r, db.tables, db.version);
  }

  ghost predicate CutFacts(t: Tables, v: Version, r: Running) {
    && TwoLevels(v, [FLUSHED], []) && r.inputs.level == 2 && r.inputs.inputs0 == [FLUSHED] && r.inputs.inputs1 == []
    && r.outputs == [[WRITES[0], WRITES[2]], [WRITES[1]]]
  }

  lemma CutReady(db: DB)
    requires Merging(db, FLUSHED, []) && db.Oldest() == 2 && Run(db.tables, FLUSHED) == FIRST
    ensures CutFacts(db.tables, db.version, db.running.value) && |db.running.value.outputs| == 2
  {
    hide DB.Valid, Sorted, Flatten, Kept, CutWhereDue, TwoLevels;
    CutApart(db);
  }

  lemma FromCut(t: Tables, v: Version, r: Running, t': Tables, v': Version)
    requires CutFacts(t, v, r) && Installed(t, v, 3, r, Count, t', v')
    ensures TwoLevels(v', [], [FRONT, BACK])
    ensures Run(t', FRONT) == [WRITES[0], WRITES[2]] && Run(t', BACK) == [WRITES[1]]
  {
    hide TwoLevels, Installed;
    CutInstalled(t, v, r, t', v');
  }

  method WriteSecond(db: DB)
    requires Quiet(db, 5, WRITES[..3], [2], [], [FRONT, BACK])
    requires Run(db.tables, FRONT) == [WRITES[0], WRITES[2]] && Run(db.tables, BACK) == [WRITES[1]]
    modifies db
    ensures Quiet(db, 7, WRITES, [], [NEWER], [FRONT, BACK]) && Run(db.tables, NEWER) == [WRITES[3]]
    ensures Run(db.tables, FRONT) == [WRITES[0], WRITES[2]] && Run(db.tables, BACK) == [WRITES[1]]
  {
    hide DB.Valid, TwoLevels, Sorted, TooHeavy, AllOf, SortedFiles, ToEntries;
    WritesAre();
    db.ReleaseSnapshot(0);
    db.Write([Put(1.0, "b")]);
    MemIsSorted(db);
    SecondIs(db.mem);
    CutSorted();
    LightAtThree(db.version);
    Flush(db, [WRITES[3]], NEWER, [FRONT, BACK]);
  }

  lemma SecondIs(mem: seq<Entry>)
    requires Sorted(mem) && AllOf(mem) == AllOf([]) + AllOf([WRITES[3]])
    ensures mem == [WRITES[3]]
  {
    assert AllOf([]) == {};
    SortedUnique(mem, [WRITES[3]]);
  }

  lemma LightAtThree(v: Version)
    requires TwoLevels(v, [], [FRONT, BACK])
    ensures !TooHeavy(TINY, v, 3, NEWER.smallest.user, NEWER.largest.user)
  {
    FrontOverlaps();
  }

  method StartSecond(db: DB)
    requires Quiet(db, 7, WRITES, [], [NEWER], [FRONT, BACK]) && Run(db.tables, NEWER) == [WRITES[3]]
    requires Run(db.tables, FRONT) == [WRITES[0], WRITES[2]] && Run(db.tables, BACK) == [WRITES[1]]
    modifies db`imm, db`tables, db`version, db`nextFileNumber, db`seekFile, db`allowedSeeks,
             db`compactPointer, db`running, db`merged, db`alone
    ensures db.Valid() && db.running.Some?
    ensures AfterInstall(db.TheStore(), db.running.value, db.merged) == {WRITES[1]} + AllOf([WRITES[3]])
  {
    hide DB.Valid, TwoLevels, Sorted, Flatten, Kept, CutWhereDue, AfterInstall, Store.Entries, AllOf, Elsewhere;
    StartManual(db, NEWER, [FRONT, BACK]);
    MergesFront(db);
    SecondLeaves(db);
  }

  method CompactSecond(db: DB)
    requires Quiet(db, 7, WRITES, [], [NEWER], [FRONT, BACK]) && Run(db.tables, NEWER) == [WRITES[3]]
    requires Run(db.tables, FRONT) == [WRITES[0], WRITES[2]] && Run(db.tables, BACK) == [WRITES[1]]
    modifies db
    ensures db.Valid() && db.writes == WRITES && db.lastSequence == 4 && db.snapshots == []
    ensures db.TheStore().Entries() == {WRITES[1]} + AllOf([WRITES[3]])
  {
    hide DB.Valid, TwoLevels, Installed, AfterInstall, Store.Entries, AllOf, Run, SameReads;
    StartSecond(db);
    db.InstallCompactionResults();
  }

  lemma SecondLeaves(db: DB)
    requires Merging(db, NEWER, [FRONT, BACK]) && db.mem == [] && db.imm.None? && db.Oldest() == 4
    requires Run(db.tables, BACK) == [WRITES[1]] && db.running.value.inputs.inputs1 == [FRONT]
    requires Kept(db.merged, 4, db.version, 2, |db.merged|) == [WRITES[3]]
    ensures AfterInstall(db.TheStore(), db.running.value, db.merged) == {WRITES[1]} + AllOf([WRITES[3]])
  {
    hide DB.Valid, Sorted, Flatten, Kept, CutWhereDue, AfterInstall, AllOf, Elsewhere;
    BackStays(db.TheStore(), db.running.value.inputs);
    AfterInstallIs(db.TheStore(), db.running.value, db.merged);
  }

  /** In a plain map key 2 is deleted for good. */
  lemma PlainLoses()
    ensures |Runs.PlainAnswers(LOSING)| == 14 && Runs.PlainAnswers(LOSING)[13] == None
  {
    Runs.PlainAnswerAt(LOSING, 13);
    PlainHalf();
    hide Runs.PlainAnswers, Runs.PlainRun, Runs.ApplyBatch;
    Runs.PlainRunMore(LOSING, 8);
    Runs.PlainRunMore(LOSING, 9);
    Runs.PlainRunMore(LOSING, 10);
    Runs.PlainRunMore(LOSING, 11);
    Runs.PlainRunMore(LOSING, 12);
    OneOp(Runs.PlainRun(LOSING[..8]).current, Put(1.0, "b"));
  }

  lemma PlainHalf()
    ensures var p := Runs.PlainRun(LOSING[..8]);
            p.count == 3 && p.snapshots == [] && 2.0 !in p.current
  {
    hide Runs.PlainRun, Runs.ApplyBatch;
    PlainNothing();
    Runs.PlainRunMore(LOSING, 0);
    Runs.PlainRunMore(LOSING, 1);
    Runs.PlainRunMore(LOSING, 2);
    Runs.PlainRunMore(LOSING, 3);
    Runs.PlainRunMore(LOSING, 4);
    Runs.PlainRunMore(LOSING, 5);
    Runs.PlainRunMore(LOSING, 6);
    Runs.PlainRunMore(LOSING, 7);
    OneOp(Runs.PlainRun(LOSING[..2]).current, Delete(2.0));
  }

  lemma PlainNothing()
    ensures Runs.PlainRun(LOSING[..0]) == Runs.Plain(0, map[], [])
  {
  }

  lemma OneOp(m: map<UserKey, Value>, op: WriteOp)
    ensures Runs.ApplyBatch(m, [op]) == Runs.ApplyOp(m, op)
  {
    assert [op][..0] == [];
  }

  lemma SnapshotDescribed(p: Runs.Plain, h: seq<Entry>, snapshots: seq<SequenceNumber>, s: SequenceNumber)
    requires Runs.Describes(p, h, snapshots) && s == |h|
    ensures Runs.Describes(Runs.PlainStep(p, Runs.TakeSnapshot), h, snapshots + [s])
  {
    assert h[..|h|] == h;
  }

  lemma DropDescribed(p: Runs.Plain, h: seq<Entry>, s: SequenceNumber)
    requires Runs.Describes(p, h, [s])
    ensures Runs.Describes(Runs.PlainStep(p, Runs.DropSnapshot(0)), h, [])
  {
  }

  /** The plain run of the first eight commands describes the first three writes. */
  lemma HalfDescribed()
    ensures Runs.Describes(Runs.PlainRun(LOSING[..8]), WRITES[..3], [])
  {
    hide Runs.PlainRun, Runs.Describes, Runs.ApplyBatch, ToEntries;
    Runs.NothingDescribed();
    WritesAre();
    assert LOSING[..0] == [];
    Runs.PlainRunMore(LOSING, 0);
    Runs.PlainRunMore(LOSING, 1);
    Runs.PlainRunMore(LOSING, 2);
    Runs.PlainRunMore(LOSING, 3);
    Runs.PlainRunMore(LOSING, 4);
    Runs.PlainRunMore(LOSING, 5);
    Runs.PlainRunMore(LOSING, 6);
    Runs.PlainRunMore(LOSING, 7);
    Runs.WriteDescribed(Runs.PlainRun([]), [], [], [Put(1.0, "a"), Put(2.0, "x")]);
    assert [] + WRITES[..2] == WRITES[..2];
    SnapshotDescribed(Runs.PlainRun(LOSING[..1]), WRITES[..2], [], 2);
    assert [] + [2 as SequenceNumber] == [2];
    Runs.WriteDescribed(Runs.PlainRun(LOSING[..2]), WRITES[..2], [2], [Delete(2.0)]);
    DropDescribed(Runs.PlainRun(LOSING[..7]), WRITES[..3], 2);
  }

  /** The plain run of all commands describes all writes. */
  lemma LosingDescribed()
    ensures Runs.Describes(Runs.PlainRun(LOSING), WRITES, [])
  {
    hide Runs.PlainRun, Runs.Describes, Runs.ApplyBatch, ToEntries;
    WritesAre();
    HalfDescribed();
    Runs.PlainRunMore(LOSING, 8);
    Runs.PlainRunMore(LOSING, 9);
    Runs.PlainRunMore(LOSING, 10);
    Runs.PlainRunMore(LOSING, 11);
    Runs.PlainRunMore(LOSING, 12);
    Runs.PlainRunMore(LOSING, 13);
    Runs.WriteDescribed(Runs.PlainRun(LOSING[..8]), WRITES[..3], [], [Put(1.0, "b")]);
    assert LOSING[..14] == LOSING;
  }

  method RunFirst() returns (db: DB)
    ensures fresh(db) && Quiet(db, 5, WRITES[..3], [2], [], [FRONT, BACK])
    ensures Run(db.tables, FRONT) == [WRITES[0], WRITES[2]] && Run(db.tables, BACK) == [WRITES[1]]
  {
    hide DB.Valid, TwoLevels, TooHeavy, Store.Entries, SortedFiles, AllOf;
    db := WriteFirst();
    NothingYet();
    Flush(db, FIRST, FLUSHED, []);
    CompactFirst(db);
  }

  /** The run reads the value of key 2 that was deleted; so one of its compactions was
      not safe.  A plain map has no such key. */
  method LoseDeletion() returns (db: DB, answer: Option<Value>)
    ensures db.Valid() && !db.safe && answer == Some("x")
    ensures Runs.Describes(Runs.PlainRun(LOSING), db.writes, db.snapshots)
    ensures |Runs.PlainAnswers(LOSING)| == 14 && Runs.PlainAnswers(LOSING)[13] == None
  {
    hide DB.Valid, Quiet, TwoLevels, Read, ReadAt, Store.Entries, AllOf, Run, Runs.PlainRun, Runs.PlainAnswers, Runs.Describes;
    db := RunFirst();
    WriteSecond(db);
    CompactSecond(db);
    ValueIsBack();
    answer := db.Get(2.0, None);
    PlainLoses();
    LosingDescribed();
  }
}
