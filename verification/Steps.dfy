/** The background steps on the whole store: memtable switch, flush, trivial move and
    compaction.  Each keeps the ordering invariant. */
module Steps {
  import opened Keys
  import opened History
  import opened Files
  import opened Compactions
  import opened CompactionWork
  import opened Lsm
  import opened Builders
  import opened Install
  import opened Reads
  import opened Boundary
  import opened Children
  import opened Stores

  // ------------------------------------------------------------------ memtable switch

  lemma SwitchKeeps(h: seq<Entry>, st: Store, next: nat)
    requires InOrderStore(h, st, next) && st.imm.None?
    ensures var st' := st.(mem := [], imm := Some(st.mem));
            InOrderStore(h, st', next) && st'.Entries() == st.Entries()
  {
    hide VersionOk, VersionWritten, NumbersBelow, LevelsEntries;
  }

  lemma NumbersGrow(h: seq<Entry>, st: Store, next: nat, next': nat)
    requires InOrderStore(h, st, next) && next <= next'
    ensures InOrderStore(h, st, next')
  {
    hide VersionOk, VersionWritten, AboveVersion, Sorted, RunWritten, Above;
  }

  // ------------------------------------------------------------------ flush

  ghost predicate NoneOverlaps(files: seq<FileMeta>, lo: UserKey, hi: UserKey) {
    forall f :: f in files ==> !Overlaps(f, Some(lo), Some(hi))
  }

  predicate TooHeavy(options: Options, v: Version, level: nat, lo: UserKey, hi: UserKey)
    requires level < |v|
  {
    TotalFileSize(Overlapping(v[level], Some(lo), Some(hi))) > options.MaxGrandParentOverlapBytes()
  }

  /** The level for a new file with this range of user keys. */
  ghost predicate Picked(options: Options, v: Version, lo: UserKey, hi: UserKey, level: nat)
    requires |v| == NUM_LEVELS
  {
    && level <= MAX_MEM_COMPACT_LEVEL
    && (level > 0 ==> forall m :: 0 <= m <= level ==> NoneOverlaps(v[m], lo, hi))
    && (forall m :: 2 <= m < level + 2 ==> !TooHeavy(options, v, m, lo, hi))
    && (level < MAX_MEM_COMPACT_LEVEL ==>
          || (level == 0 && !NoneOverlaps(v[0], lo, hi)) || !NoneOverlaps(v[level + 1], lo, hi)
          || TooHeavy(options, v, level + 2, lo, hi))
  }

  /** The deepest level up to 2 that a new file can reach without passing a file that
      overlaps it or landing over too many bytes two levels down. */
  method PickLevelForMemTableOutput(options: Options, v: Version, lo: UserKey, hi: UserKey) returns (level: nat)
    requires LevelsOk(v)
    ensures Picked(options, v, lo, hi, level)
  {
    hide DisjointSorted, Overlaps, TotalFileSize, Overlapping;
    level := 0;
    var overlapsTop := SomeFileOverlapsRange(false, v[0], Some(lo), Some(hi));
    if !overlapsTop {
      while level < MAX_MEM_COMPACT_LEVEL
        invariant level <= MAX_MEM_COMPACT_LEVEL
        invariant forall m :: 0 <= m <= level ==> NoneOverlaps(v[m], lo, hi)
        invariant forall m :: 2 <= m < level + 2 ==> !TooHeavy(options, v, m, lo, hi)
      {
        var overlapsNext := SomeFileOverlapsRange(true, v[level + 1], Some(lo), Some(hi));
        if overlapsNext {
          break;
        }
        ghost var l, h;
        var overlaps: seq<FileMeta>;
        overlaps, l, h := GetOverlappingInputs(level + 2, v[level + 2], Some(lo), Some(hi));
        if TotalFileSize(overlaps) > options.MaxGrandParentOverlapBytes() {
          break;
        }
        level := level + 1;
      }
    }
  }

  /** The file made of the immutable memtable. */
  ghost predicate FlushOutput(st: Store, next: nat, f: FileMeta) {
    st.Imm() != [] && f == OutputMeta(st.Imm(), next, f.size)
  }

  /** The new version has the file on the level picked for it. */
  ghost predicate Flushed(options: Options, v: Version, f: FileMeta, v': Version) {
    && |v| == NUM_LEVELS
    && exists level :: Picked(options, v, f.smallest.user, f.largest.user, level) && Edited(v, v', FileEdit({}, [(level, f)]))
  }

  /** WriteLevel0Table. */
  method WriteLevel0Table(options: Options, ghost h: seq<Entry>, st: Store, next: nat, size: nat)
    returns (f: FileMeta, level: nat, v': Version)
    requires InOrderStore(h, st, next) && st.Imm() != []
    ensures FlushOutput(st, next, f) && f.size == size && level <= MAX_MEM_COMPACT_LEVEL
    ensures Flushed(options, st.version, f, v')
    ensures ClearDownTo(st.version, level, f)
    ensures Edited(st.version, v', FileEdit({}, [(level, f)]))
  {
    LevelsSorted(st.tables, st.version);
    f := OutputMeta(st.Imm(), next, size);
    level := PickLevelForMemTableOutput(options, st.version, f.smallest.user, f.largest.user);
    FlushIsFresh(h, st, next, f, level);
    hide InOrderStore, SortedFiles, FreshEdit, Edited;
    v' := ApplyEdit(st.version, FileEdit({}, [(level, f)]));
  }

  lemma FlushIsFresh(h: seq<Entry>, st: Store, next: nat, f: FileMeta, level: nat)
    requires InOrderStore(h, st, next) && f.number == next && level < NUM_LEVELS
    ensures FreshEdit(st.version, FileEdit({}, [(level, f)]))
  {
    hide VersionWritten, AboveVersion, Sorted, RunWritten, Above, Ordered;
    forall g | g in st.version[level]
      ensures !SamePlace(f, g)
    {
      assert g.number < next;
    }
  }

  lemma SameRunsOk(t: Tables, t': Tables, v: Version)
    requires VersionOk(t, v) && SameRuns(t, t', v)
    ensures VersionOk(t', v) && LevelsEntries(t', v) == LevelsEntries(t, v)
  {
    hide LevelsOk, SortedFiles, UniqueNumbers, Above, FileOk;
    forall l, f | 0 <= l < |v| && f in v[l]
      ensures FileOk(t', f)
    {
      SameFileOk(t, t', f);
    }
    SameRunsOrdered(t, t', v);
    SameRunsEntries(t, t', v);
  }

  lemma SameFileOk(t: Tables, t': Tables, f: FileMeta)
    requires FileOk(t, f) && Run(t', f) == Run(t, f)
    ensures FileOk(t', f)
  {
  }

  lemma SameRunsOrdered(t: Tables, t': Tables, v: Version)
    requires Ordered(t, v) && SameRuns(t, t', v)
    ensures Ordered(t', v)
  {
    hide Above;
  }

  lemma SameRunsEntries(t: Tables, t': Tables, v: Version)
    requires SameRuns(t, t', v)
    ensures LevelsEntries(t', v) == LevelsEntries(t, v)
  {
    forall e
      ensures e in LevelsEntries(t', v) <==> e in LevelsEntries(t, v)
    {
      if l, f :| 0 <= l < |v| && f in v[l] && e in Run(t, f) {
        assert e in Run(t', f);
      }
      if l, f :| 0 <= l < |v| && f in v[l] && e in Run(t', f) {
        assert e in Run(t, f);
      }
    }
  }

  /** New tables with new numbers do not change the tables of the version. */
  lemma NewTables(t: Tables, t': Tables, v: Version, next: nat)
    requires NumbersBelow(t, v, next)
    requires forall n :: n < next ==> (n in t <==> n in t') && (n in t ==> t[n] == t'[n])
    ensures SameRuns(t, t', v)
  {
  }

  lemma JoinedEntries(t: Tables, v: Version, v': Version, level: nat, f: FileMeta)
    requires Joined(v, v', level, f) && level < NUM_LEVELS
    ensures LevelsEntries(t, v') == LevelsEntries(t, v) + AllOf(Run(t, f))
  {
    hide SortedFiles;
    forall e
      ensures e in LevelsEntries(t, v') <==> e in LevelsEntries(t, v) || e in Run(t, f)
    {
      if l, g :| 0 <= l < |v| && g in v[l] && e in Run(t, g) {
        assert g in v'[l];
      }
      if l, g :| 0 <= l < |v'| && g in v'[l] && e in Run(t, g) {
        assert g in v[l] || g == f;
      }
      if e in Run(t, f) {
        assert f in v'[level];
      }
    }
  }

  lemma FlushedFile(st: Store, next: nat, f: FileMeta, t': Tables)
    requires FlushOutput(st, next, f) && Sorted(st.Imm()) && t' == st.tables[next := st.Imm()]
    ensures Run(t', f) == st.Imm() && FileOk(t', f) && f.number == next
  {
  }

  /** The flush keeps the version in order and moves the entries into it. */
  lemma FlushVersion(h: seq<Entry>, st: Store, next: nat, f: FileMeta, level: nat, t': Tables, v': Version)
    requires InOrderStore(h, st, next) && FlushOutput(st, next, f) && level < NUM_LEVELS
    requires ClearDownTo(st.version, level, f) && Edited(st.version, v', FileEdit({}, [(level, f)]))
    requires t' == st.tables[next := st.Imm()]
    ensures VersionOk(t', v') && Joined(st.version, v', level, f) && SameRuns(st.tables, t', st.version)
  {
    NewTables(st.tables, t', st.version, next);
    SameRunsOk(st.tables, t', st.version);
    FlushedFile(st, next, f, t');
    hide VersionOk, VersionWritten, Sorted, RunWritten, Above, FileOk, ClearDownTo, Edited;
    forall l, g | 0 <= l < NUM_LEVELS && g in st.version[l]
      ensures g.number < f.number && Above(Run(t', f), Run(t', g))
    {
      assert Above(st.Imm(), Run(st.tables, g));
    }
    FlushKeepsOk(t', st.version, v', level, f);
  }

  /** The flush keeps the store in order and all its entries. */
  lemma FlushKeeps(h: seq<Entry>, st: Store, next: nat, f: FileMeta, level: nat, v': Version)
    requires InOrderStore(h, st, next) && FlushOutput(st, next, f) && level < NUM_LEVELS
    requires ClearDownTo(st.version, level, f) && Edited(st.version, v', FileEdit({}, [(level, f)]))
    ensures var st' := Store(st.mem, None, st.tables[next := st.Imm()], v');
            InOrderStore(h, st', next + 1) && st'.Entries() == st.Entries()
  {
    hide VersionOk, Sorted, RunWritten, Above, FileOk, ClearDownTo, Edited, SortedFiles, LevelsEntries;
    var t' := st.tables[next := st.Imm()];
    FlushVersion(h, st, next, f, level, t', v');
    FlushedFile(st, next, f, t');
    JoinedEntries(t', st.version, v', level, f);
    SameRunsEntries(st.tables, t', st.version);
    forall l, g | 0 <= l < |v'| && g in v'[l]
      ensures RunWritten(h, Run(t', g)) && Above(st.mem, Run(t', g)) && g.number < next + 1
    {
      assert g in st.version[l] || g == f;
      assert g in st.version[l] ==> Run(t', g) == Run(st.tables, g);
    }
    NothingAbove(h, t', v', st.mem);
  }

  lemma NothingAbove(h: seq<Entry>, t: Tables, v: Version, r: seq<Entry>)
    ensures Above(r, []) && AboveVersion([], t, v) && Sorted([]) && RunWritten(h, [])
  {
  }

  /** An empty immutable memtable leaves no file. */
  lemma EmptyFlushKeeps(h: seq<Entry>, st: Store, next: nat)
    requires InOrderStore(h, st, next) && st.Imm() == []
    ensures InOrderStore(h, st.(imm := None), next) && st.(imm := None).Entries() == st.Entries()
  {
    hide VersionOk, VersionWritten, AboveVersion, Sorted, RunWritten, Above, LevelsEntries, NumbersBelow;
  }

  // ------------------------------------------------------------------ sinking files

  lemma SinkWritten(h: seq<Entry>, st: Store, next: nat, c: Inputs, t': Tables, v': Version, outs: seq<FileMeta>, l: nat, g: FileMeta)
    requires InOrderStore(h, st, next) && InputsOk(st.version, c)
    requires OutputsOk(st.tables, st.version, t', c, outs) && SameRuns(st.tables, t', st.version)
    requires Sunk(st.version, v', c, outs) && l < |v'| && g in v'[l]
    ensures RunWritten(h, Run(t', g)) && Above(st.mem, Run(t', g)) && Above(st.Imm(), Run(t', g))
  {
    RunAboveAll(st.mem, st.tables, st.version);
    RunAboveAll(st.Imm(), st.tables, st.version);
    EntriesBefore(st.tables, st.version, c);
    hide VersionOk, InputsOk, NumbersBelow, Sorted, SortedFiles, FileOk, Apart, StayingEntries, LevelsEntries, InputEntries;
    if Stays(st.version, c, l, g) {
      assert Run(t', g) == Run(st.tables, g);
    } else {
      hide VersionWritten, AboveVersion;
      forall e | e in Run(t', g)
        ensures Written(h, e)
      {
        InputWritten(h, st.tables, st.version, c, e);
      }
      forall e | e in Run(t', g)
        ensures e in LevelsEntries(st.tables, st.version)
      {
        assert e in InputEntries(st.tables, c);
      }
      hide OutputsOk, RunWritten;
      AboveRun(st.mem, LevelsEntries(st.tables, st.version), Run(t', g));
      AboveRun(st.Imm(), LevelsEntries(st.tables, st.version), Run(t', g));
    }
  }

  lemma AboveRun(r: seq<Entry>, es: set<Entry>, q: seq<Entry>)
    requires AboveAll(AllOf(r), es) && forall e :: e in q ==> e in es
    ensures Above(r, q)
  {
  }

  /** Sinking files keeps the store in order. */
  lemma SinkKeeps(h: seq<Entry>, st: Store, next: nat, next': nat, c: Inputs, t': Tables, v': Version, outs: seq<FileMeta>)
    requires InOrderStore(h, st, next) && InputsOk(st.version, c)
    requires OutputsOk(st.tables, st.version, t', c, outs) && SameRuns(st.tables, t', st.version)
    requires Sunk(st.version, v', c, outs) && NumbersBelow(t', v', next')
    ensures InOrderStore(h, st.(tables := t', version := v'), next')
  {
    SinkKeepsOk(h, st.tables, st.version, t', v', c, outs);
    forall l, g | 0 <= l < |v'| && g in v'[l]
      ensures RunWritten(h, Run(t', g)) && Above(st.mem, Run(t', g)) && Above(st.Imm(), Run(t', g))
    {
      hide *;
      SinkWritten(h, st, next, c, t', v', outs, l, g);
    }
    hide VersionOk, InputsOk, OutputsOk, NumbersBelow, Sorted, Sunk, RunWritten, Above;
  }

  /** The deletions of AddInputDeletions. */
  function InputNumbers(c: Inputs): set<(nat, nat)> {
    (set f | f in c.inputs0 :: (c.level, f.number)) + (set f | f in c.inputs1 :: (c.level + 1, f.number))
  }

  /** Deleting the inputs by number and adding files to the lower level sinks them. */
  lemma EditSinks(v: Version, c: Inputs, v': Version, edit: FileEdit, outs: seq<FileMeta>)
    requires UniqueNumbers(v) && InputsOk(v, c) && Edited(v, v', edit)
    requires edit.deletedFiles == InputNumbers(c)
    requires forall l, f :: (l, f) in edit.newFiles <==> l == c.level + 1 && f in outs
    ensures Sunk(v, v', c, outs)
  {
    hide InputsOk, SortedFiles, InputNumbers, Edited, UniqueNumbers, Stays;
    InputsInLevels(v, c);
    EditedLevels(v, v', edit);
    forall l, g | 0 <= l < NUM_LEVELS
      ensures g in v'[l] <==> Stays(v, c, l, g) || (l == c.level + 1 && g in outs)
    {
      EditedAt(v, v', edit, l, g);
      StaysThere(v, c, l, g);
      if g in v[l] {
        DeletedIsInput(v, c, l, g);
      }
    }
  }

  lemma EditedLevels(v: Version, v': Version, edit: FileEdit)
    requires Edited(v, v', edit)
    ensures |v| == |v'| == NUM_LEVELS && forall l :: 0 <= l < NUM_LEVELS ==> SortedFiles(v'[l])
  {
    hide SortedFiles;
  }

  lemma EditedAt(v: Version, v': Version, edit: FileEdit, l: nat, g: FileMeta)
    requires Edited(v, v', edit) && l < NUM_LEVELS
    ensures |v| == |v'| == NUM_LEVELS
    ensures g in v'[l] <==> (g in v[l] && (l, g.number) !in edit.deletedFiles) || (l, g) in edit.newFiles
  {
    hide SortedFiles;
  }

  lemma StaysThere(v: Version, c: Inputs, l: nat, g: FileMeta)
    requires l < |v|
    ensures Stays(v, c, l, g) ==> g in v[l]
  {
  }

  lemma DeletedIsInput(v: Version, c: Inputs, l: nat, g: FileMeta)
    requires UniqueNumbers(v) && c.level + 1 < |v| && l < |v| && g in v[l]
    requires forall f :: f in c.inputs0 ==> f in v[c.level]
    requires forall f :: f in c.inputs1 ==> f in v[c.level + 1]
    ensures (l, g.number) in InputNumbers(c) <==> !Stays(v, c, l, g)
  {
  }

  // ------------------------------------------------------------------ trivial move

  function MoveEdit(c: Inputs): FileEdit
    requires |c.inputs0| == 1
  {
    FileEdit({(c.level, c.inputs0[0].number)}, [(c.level + 1, c.inputs0[0])])
  }

  lemma SameNumber(t: Tables, v: Version, l: nat, f: FileMeta, m: nat, g: FileMeta)
    requires VersionOk(t, v) && l < |v| && m < |v| && f in v[l] && g in v[m] && f.number == g.number
    ensures l == m && f == g
  {
    hide LevelsOk, SortedFiles, Ordered, FileOk;
  }

  lemma OtherLevel(v: Version, l: nat, f: FileMeta, m: nat, g: FileMeta)
    requires UniqueNumbers(v) && l < |v| && m < |v| && f in v[l] && g in v[m] && l != m
    ensures f.number != g.number
  {
  }

  lemma HasUniqueNumbers(t: Tables, v: Version)
    requires VersionOk(t, v)
    ensures UniqueNumbers(v)
  {
  }

  lemma InputFilesOk(t: Tables, v: Version, c: Inputs)
    requires VersionOk(t, v) && InputsOk(v, c)
    ensures forall f :: f in c.inputs0 ==> FileOk(t, f)
  {
    InputsInLevels(v, c);
    hide InputsOk, FileOk, LevelsOk, Ordered, UniqueNumbers, SortedFiles;
  }

  /** The file moved to the next level is new there. */
  lemma MoveIsFresh(t: Tables, v: Version, c: Inputs)
    requires VersionOk(t, v) && InputsOk(v, c) && |c.inputs0| == 1
    ensures FreshEdit(v, MoveEdit(c))
  {
    hide VersionOk, InputsOk, Less, UniqueNumbers;
    InputsInLevels(v, c);
    HasUniqueNumbers(t, v);
    var f := c.inputs0[0];
    assert f in c.inputs0;
    forall g | g in v[c.level + 1]
      ensures !SamePlace(f, g)
    {
      OtherLevel(v, c.level, f, c.level + 1, g);
    }
  }

  lemma MoveEntries(t: Tables, c: Inputs)
    requires c.inputs1 == []
    ensures InputEntries(t, c) == FilesEntries(t, c.inputs0)
  {
    assert FilesEntries(t, []) == {};
  }

  lemma MoveOutputsOk(t: Tables, v: Version, c: Inputs)
    requires VersionOk(t, v) && InputsOk(v, c) && |c.inputs0| == 1 && c.inputs1 == []
    ensures OutputsOk(t, v, t, c, c.inputs0)
    ensures InputEntries(t, c) == FilesEntries(t, c.inputs0)
  {
    hide VersionOk, InputsOk, FileOk, Run, FilesEntries, InputEntries, Apart;
    InputsInLevels(v, c);
    MoveEntries(t, c);
    InputFilesOk(t, v, c);
    var f := c.inputs0[0];
    assert forall o :: o in c.inputs0 <==> o == f;
    forall e | e in Run(t, f)
      ensures e in InputEntries(t, c)
    {
      InFilesEntries(t, c.inputs0, f, e);
    }
    forall l, g | 0 <= l < |v| && g in v[l] && g.number == f.number
      ensures l == c.level && g in c.inputs0
    {
      SameNumber(t, v, l, g, c.level, f);
    }
  }

  /** A trivial move keeps the store in order and all its entries. */
  lemma MoveKeeps(h: seq<Entry>, st: Store, next: nat, c: Inputs, v': Version)
    requires InOrderStore(h, st, next) && InputsOk(st.version, c) && |c.inputs0| == 1 && c.inputs1 == []
    requires Edited(st.version, v', MoveEdit(c))
    ensures InOrderStore(h, st.(version := v'), next) && st.(version := v').Entries() == st.Entries()
  {
    var v := st.version;
    MoveOutputsOk(st.tables, v, c);
    MoveNumbers(c);
    EditSinks(v, c, v', MoveEdit(c), c.inputs0);
    EntriesBefore(st.tables, v, c);
    assert SameRuns(st.tables, st.tables, v);
    EntriesAfter(st.tables, v, st.tables, v', c, c.inputs0);
    SunkNumbers(st, next, c, v', c.inputs0, st.tables, next);
    hide *;
    SinkKeeps(h, st, next, next, c, st.tables, v', c.inputs0);
    SameLevels(st, v');
  }

  /** The file leaves its level for the next one, and no other file moves. */
  lemma MoveSinks(h: seq<Entry>, st: Store, next: nat, c: Inputs, v': Version)
    requires InOrderStore(h, st, next) && InputsOk(st.version, c) && |c.inputs0| == 1 && c.inputs1 == []
    requires Edited(st.version, v', MoveEdit(c))
    ensures Sunk(st.version, v', c, c.inputs0)
  {
    hide *;
    StoreParts(h, st, next);
    MoveOutputsOk(st.tables, st.version, c);
    MoveNumbers(c);
    EditSinks(st.version, c, v', MoveEdit(c), c.inputs0);
  }

  lemma SameLevels(st: Store, v': Version)
    requires LevelsEntries(st.tables, v') == LevelsEntries(st.tables, st.version)
    ensures st.(version := v').Entries() == st.Entries()
  {
  }

  lemma MoveNumbers(c: Inputs)
    requires |c.inputs0| == 1 && c.inputs1 == []
    ensures MoveEdit(c).deletedFiles == InputNumbers(c)
    ensures forall l, f :: (l, f) in MoveEdit(c).newFiles <==> l == c.level + 1 && f in c.inputs0
  {
    assert c.inputs0[0] in c.inputs0;
  }

  lemma SunkNumbers(st: Store, next: nat, c: Inputs, v': Version, outs: seq<FileMeta>, t': Tables, next': nat)
    requires NumbersBelow(st.tables, st.version, next) && Sunk(st.version, v', c, outs) && next <= next'
    requires forall o :: o in outs ==> o.number < next' || o in c.inputs0
    requires c.level < |st.version| && forall f :: f in c.inputs0 ==> f in st.version[c.level]
    requires forall n :: n in t' ==> n < next'
    ensures NumbersBelow(t', v', next')
  {
    hide SortedFiles;
  }

  // ------------------------------------------------------------------ compaction

  ghost function Elsewhere(st: Store, c: Inputs): set<Entry> {
    AllOf(st.mem) + AllOf(st.Imm()) + StayingEntries(st.tables, st.version, c)
  }

  /** Every user key is safe under the drop rules. */
  ghost predicate SafeCompaction(st: Store, c: Inputs, s: SequenceNumber)
    requires InputsOk(st.version, c)
  {
    forall k :: SafeKey(Elsewhere(st, c), LeftEntries(st.tables, st.version, c), InputEntries(st.tables, c), s,
                        BaseKeys(st.version, c.level), k)
  }

  /** Enough for safety: no file of the lower level follows the lower inputs with their
      largest user key, so AddBoundaryInputs would not extend them. */
  lemma ClosedCompactionIsSafe(h: seq<Entry>, st: Store, next: nat, c: Inputs, s: SequenceNumber)
    requires InOrderStore(h, st, next) && InputsOk(st.version, c) && LowerClosed(st.version, c)
    ensures SafeCompaction(st, c, s)
  {
    LowerClosedIsSafe(h, AllOf(st.mem) + AllOf(st.Imm()), st.tables, st.version, c, s);
  }

  /** No entry is both in an input and elsewhere. */
  lemma InputsApart(h: seq<Entry>, st: Store, next: nat, c: Inputs)
    requires InOrderStore(h, st, next) && InputsOk(st.version, c)
    ensures AboveAll(AllOf(st.mem) + AllOf(st.Imm()), InputEntries(st.tables, c))
    ensures Elsewhere(st, c) !! InputEntries(st.tables, c)
  {
    var newer := AllOf(st.mem) + AllOf(st.Imm());
    RunAboveAll(st.mem, st.tables, st.version);
    RunAboveAll(st.Imm(), st.tables, st.version);
    EntriesBefore(st.tables, st.version, c);
    StayingApart(st.tables, st.version, c);
    hide InOrderStore, InputsOk, StayingEntries, LevelsEntries, InputEntries, AllOf;
    AboveAllDisjoint(newer, InputEntries(st.tables, c));
  }

  lemma StayingApart(t: Tables, v: Version, c: Inputs)
    requires VersionOk(t, v) && InputsOk(v, c)
    ensures StayingEntries(t, v, c) !! InputEntries(t, c)
  {
    InputsInLevels(v, c);
    hide VersionOk, InputsOk;
    forall e | e in StayingEntries(t, v, c)
      ensures e !in InputEntries(t, c)
    {
      var l, f := StayingFile(t, v, c, e);
      if e in InputEntries(t, c) {
        var g := InputFile(t, v, c, e);
        OnePlace(t, v, l, f, if g in c.inputs0 then c.level else c.level + 1, g, e);
        assert false;
      }
    }
  }

  /** What readers at or above `s` see is preserved if and only if the compaction is safe. */
  lemma CompactionReads(h: seq<Entry>, st: Store, next: nat, c: Inputs, contents: seq<Entry>, s: SequenceNumber, es': set<Entry>)
    requires InOrderStore(h, st, next) && Compacting(h, st.tables, st.version, c, contents)
    requires es' == Elsewhere(st, c) + AllOf(Kept(contents, s, st.version, c.level, |contents|))
    ensures SafeCompaction(st, c, s) <==> SameReads(st.Entries(), es', s)
  {
    hide Compacting, InOrderStore, InputsOk, StayingEntries, LevelsEntries, InputEntries, AllOf, Kept, Thinned, LeftEntries, SafeKey;
    CompactingParts(h, st.tables, st.version, c, contents);
    EntriesWritten(h, st, next);
    EntriesBefore(st.tables, st.version, c);
    InputsApart(h, st, next, c);
    CompactionThins(h, AllOf(st.mem) + AllOf(st.Imm()), st.tables, st.version, c, contents, s);
    assert st.Entries() == Elsewhere(st, c) + InputEntries(st.tables, c);
    SafeIffSameReads(Elsewhere(st, c), LeftEntries(st.tables, st.version, c), InputEntries(st.tables, c),
                     AllOf(Kept(contents, s, st.version, c.level, |contents|)), s, BaseKeys(st.version, c.level));
  }

  function AtLevel(level: nat, outs: seq<FileMeta>): (r: seq<(nat, FileMeta)>)
    ensures forall l, f :: (l, f) in r <==> l == level && f in outs
  {
    var r := seq(|outs|, i requires 0 <= i < |outs| => (level, outs[i]));
    assert forall i :: 0 <= i < |outs| ==> r[i] == (level, outs[i]);
    r
  }

  /** The edit of InstallCompactionResults. */
  function CompactionEdit(c: Inputs, outs: seq<FileMeta>): FileEdit {
    FileEdit(InputNumbers(c), AtLevel(c.level + 1, outs))
  }

  lemma CompactionIsFresh(st: Store, next: nat, c: Inputs, outputs: seq<seq<Entry>>, t': Tables, outs: seq<FileMeta>)
    requires NumbersBelow(st.tables, st.version, next) && InputsOk(st.version, c)
    requires WrittenOut(outputs, next, t', outs)
    ensures FreshEdit(st.version, CompactionEdit(c, outs))
  {
    InputsInLevels(st.version, c);
    OutputNumbers(outputs, next, t', outs);
    InputsBelow(st, next, c);
    hide InputsOk, Less, WrittenOut, InputNumbers;
  }

  lemma InputsBelow(st: Store, next: nat, c: Inputs)
    requires NumbersBelow(st.tables, st.version, next) && InputsOk(st.version, c)
    ensures forall p :: p in InputNumbers(c) ==> p.0 < NUM_LEVELS && p.1 < next
  {
    InputsInLevels(st.version, c);
    hide InputsOk;
  }

  /** Writes the outputs into files with new numbers. */
  method WriteOutputs(t: Tables, next: nat, outputs: seq<seq<Entry>>, fileSize: seq<Entry> -> nat)
    returns (t': Tables, outs: seq<FileMeta>)
    requires forall o :: o in outputs ==> o != []
    requires forall n :: n in t ==> n < next
    ensures WrittenOut(outputs, next, t', outs)
    ensures forall n :: n < next ==> (n in t <==> n in t') && (n in t ==> t[n] == t'[n])
    ensures forall n :: n in t' ==> n < next + |outputs|
    ensures forall i :: 0 <= i < |outs| ==> outs[i].size == fileSize(outputs[i])
  {
    t', outs := t, [];
    for i := 0 to |outputs|
      invariant |outs| == i
      invariant forall j :: 0 <= j < i ==> outputs[j] != [] && outs[j] == OutputMeta(outputs[j], next + j, fileSize(outputs[j]))
      invariant forall j :: 0 <= j < i ==> Run(t', outs[j]) == outputs[j]
      invariant forall n :: n < next ==> (n in t <==> n in t') && (n in t ==> t[n] == t'[n])
      invariant forall n :: n in t' ==> n < next + i
    {
      assert outputs[i] in outputs;
      t' := t'[next + i := outputs[i]];
      outs := outs + [OutputMeta(outputs[i], next + i, fileSize(outputs[i]))];
    }
  }

  /** InstallCompactionResults keeps the store in order; it preserves what readers at or
      above `s` see if and only if the compaction is safe. */
  lemma CompactionKeeps(h: seq<Entry>, st: Store, next: nat, c: Inputs, contents: seq<Entry>, s: SequenceNumber,
                        outputs: seq<seq<Entry>>, t': Tables, outs: seq<FileMeta>, v': Version)
    requires InOrderStore(h, st, next) && Compacting(h, st.tables, st.version, c, contents)
    requires Flatten(outputs) == Kept(contents, s, st.version, c.level, |contents|)
    requires WrittenOut(outputs, next, t', outs)
    requires forall n :: n < next ==> (n in st.tables <==> n in t') && (n in st.tables ==> st.tables[n] == t'[n])
    requires forall n :: n in t' ==> n < next + |outputs|
    requires Edited(st.version, v', CompactionEdit(c, outs))
    ensures var st' := st.(tables := t', version := v');
            && InOrderStore(h, st', next + |outputs|)
            && st'.Entries() == Elsewhere(st, c) + AllOf(Kept(contents, s, st.version, c.level, |contents|))
            && (SafeCompaction(st, c, s) <==> SameReads(st.Entries(), st'.Entries(), s))
  {
    var st' := st.(tables := t', version := v');
    hide *;
    CompactionSinks(h, st, next, c, contents, s, outputs, t', outs, v');
    CompactingParts(h, st.tables, st.version, c, contents);
    EntriesAfter(st.tables, st.version, t', v', c, outs);
    SinkKeeps(h, st, next, next + |outputs|, c, t', v', outs);
    CompactedEntries(st, c, contents, s, t', v', outs);
    CompactionReads(h, st, next, c, contents, s, st'.Entries());
  }

  lemma OutputNumbers(outputs: seq<seq<Entry>>, next: nat, t': Tables, outs: seq<FileMeta>)
    requires WrittenOut(outputs, next, t', outs)
    ensures forall o :: o in outs ==> next <= o.number < next + |outputs|
    ensures forall o, p :: o in outs && p in outs && o.number == p.number ==> o == p
  {
    assert forall i :: 0 <= i < |outs| ==> outs[i].number == next + i;
  }

  lemma StoreParts(h: seq<Entry>, st: Store, next: nat)
    requires InOrderStore(h, st, next)
    ensures VersionOk(st.tables, st.version) && VersionWritten(h, st.tables, st.version)
    ensures NumbersBelow(st.tables, st.version, next) && UniqueNumbers(st.version) && |st.version| == NUM_LEVELS
    ensures forall l, g :: 0 <= l < |st.version| && g in st.version[l] ==> g.number < next
  {
  }

  lemma CompactingParts(h: seq<Entry>, t: Tables, v: Version, c: Inputs, contents: seq<Entry>)
    requires Compacting(h, t, v, c, contents)
    ensures InputsOk(v, c) && |v| == NUM_LEVELS && c.level + 1 < NUM_LEVELS
  {
  }

  lemma CompactionSinks(h: seq<Entry>, st: Store, next: nat, c: Inputs, contents: seq<Entry>, s: SequenceNumber,
                        outputs: seq<seq<Entry>>, t': Tables, outs: seq<FileMeta>, v': Version)
    requires InOrderStore(h, st, next) && Compacting(h, st.tables, st.version, c, contents)
    requires Flatten(outputs) == Kept(contents, s, st.version, c.level, |contents|)
    requires WrittenOut(outputs, next, t', outs)
    requires forall n :: n < next ==> (n in st.tables <==> n in t') && (n in st.tables ==> st.tables[n] == t'[n])
    requires forall n :: n in t' ==> n < next + |outputs|
    requires Edited(st.version, v', CompactionEdit(c, outs))
    ensures SameRuns(st.tables, t', st.version) && Sunk(st.version, v', c, outs) && NumbersBelow(t', v', next + |outputs|)
    ensures OutputsOk(st.tables, st.version, t', c, outs)
    ensures FilesEntries(t', outs) == AllOf(Kept(contents, s, st.version, c.level, |contents|))
  {
    hide *;
    var v := st.version;
    CompactingParts(h, st.tables, v, c, contents);
    StoreParts(h, st, next);
    EditParts(c, outs);
    NewTables(st.tables, t', v, next);
    CompactionOutputsOk(h, st.tables, v, t', c, contents, s, outputs, next, outs);
    EditSinks(v, c, v', CompactionEdit(c, outs), outs);
    InputsInLevels(v, c);
    OutputNumbers(outputs, next, t', outs);
    SunkNumbers(st, next, c, v', outs, t', next + |outputs|);
  }

  lemma EditParts(c: Inputs, outs: seq<FileMeta>)
    ensures CompactionEdit(c, outs).deletedFiles == InputNumbers(c)
    ensures forall l, f :: (l, f) in CompactionEdit(c, outs).newFiles <==> l == c.level + 1 && f in outs
  {
    hide InputNumbers;
  }

  lemma CompactedEntries(st: Store, c: Inputs, contents: seq<Entry>, s: SequenceNumber, t': Tables, v': Version, outs: seq<FileMeta>)
    requires |st.version| == NUM_LEVELS
    requires FilesEntries(t', outs) == AllOf(Kept(contents, s, st.version, c.level, |contents|))
    requires LevelsEntries(t', v') == StayingEntries(st.tables, st.version, c) + FilesEntries(t', outs)
    ensures st.(tables := t', version := v').Entries() ==
            Elsewhere(st, c) + AllOf(Kept(contents, s, st.version, c.level, |contents|))
  {
    hide LevelsEntries, StayingEntries, FilesEntries, Kept, AllOf;
  }
}
