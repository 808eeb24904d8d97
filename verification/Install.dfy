/** Installing a new version: what a flush, a trivial move and a compaction keep. */
module Install {
  import opened Keys
  import opened History
  import opened Files
  import opened Compactions
  import opened Lsm
  import opened Builders

  // ------------------------------------------------------------------ one edit on one version

  /** `v'` is `v` without the deleted files and with the new ones, level by level, in order. */
  ghost predicate Edited(v: Version, v': Version, edit: FileEdit) {
    && |v| == |v'| == NUM_LEVELS
    && (forall l :: 0 <= l < NUM_LEVELS ==> SortedFiles(v'[l]))
    && forall l, f :: 0 <= l < NUM_LEVELS ==>
         (f in v'[l] <==> (f in v[l] && (l, f.number) !in edit.deletedFiles) || (l, f) in edit.newFiles)
  }

  /** The new files are new to their level. */
  ghost predicate FreshEdit(v: Version, edit: FileEdit) {
    && |v| == NUM_LEVELS && EditOk(edit)
    && (forall p :: p in edit.newFiles ==> (p.0, p.1.number) !in edit.deletedFiles)
    && (forall p, g :: p in edit.newFiles && g in v[p.0] ==> !SamePlace(p.1, g))
    && (forall p, q :: p in edit.newFiles && q in edit.newFiles && p.0 == q.0 && SamePlace(p.1, q.1) ==> p == q)
  }

  /** Adding the new files of a fresh edit to an empty state collects those of the level. */
  lemma {:induction false} AddFilesFresh(deleted: set<nat>, level: nat, files: seq<(nat, FileMeta)>)
    requires forall p :: p in files && p.0 == level ==> p.1.number !in deleted
    requires forall p, q :: p in files && q in files && p.0 == q.0 && SamePlace(p.1, q.1) ==> p == q
    ensures var s := AddFiles(LevelState(deleted, []), level, files);
            && s.deleted == deleted && SortedFiles(s.added)
            && forall f :: f in s.added <==> (level, f) in files
  {
    if files != [] {
      var n := |files| - 1;
      var rest, p := files[..n], files[n];
      assert files == rest + [p];
      AddFilesFresh(deleted, level, rest);
      var s := AddFiles(LevelState(deleted, []), level, rest);
      if p.0 == level {
        InsertFileOk(s.added, p.1);
        forall g | g in s.added && SamePlace(p.1, g)
          ensures p.1 == g
        {
          assert (level, g) in files;
        }
        assert p == (level, p.1);
      }
    }
  }

  /** The builder's work in LogAndApply. */
  method ApplyEdit(v: Version, edit: FileEdit) returns (v': Version)
    requires FreshEdit(v, edit)
    requires forall l :: 0 <= l < NUM_LEVELS ==> SortedFiles(v[l])
    ensures Edited(v, v', edit)
  {
    var builder := new Builder(v);
    builder.Apply(edit);
    forall l | 0 <= l < NUM_LEVELS
      ensures var s := builder.levels[l];
              && s.deleted == (set p | p in edit.deletedFiles && p.0 == l :: p.1)
              && forall f :: f in s.added <==> (l, f) in edit.newFiles
    {
      var deleted := set p | p in edit.deletedFiles && p.0 == l :: p.1;
      forall p | p in edit.newFiles && p.0 == l
        ensures p.1.number !in deleted
      {
        assert forall q :: q in edit.deletedFiles && q.0 == l && q.1 == p.1.number ==> q == (p.0, p.1.number);
      }
      AddFilesFresh(deleted, l, edit.newFiles);
      assert {} + deleted == deleted;
    }
    v' := builder.SaveTo();
    forall l, f | 0 <= l < NUM_LEVELS
      ensures f in v'[l] <==> (f in v[l] && (l, f.number) !in edit.deletedFiles) || (l, f) in edit.newFiles
    {
      assert SavedLevel(v'[l], v[l], builder.levels[l]);
      if (l, f.number) in edit.deletedFiles {
        assert f.number in builder.levels[l].deleted;
      }
      if f.number in builder.levels[l].deleted {
        var q :| q in edit.deletedFiles && q.0 == l && q.1 == f.number;
        assert q == (l, f.number);
      }
    }
  }

  // ------------------------------------------------------------------ levels of disjoint files

  /** The key ranges of two files do not overlap. */
  predicate Apart(f: FileMeta, g: FileMeta) {
    Less(f.largest, g.smallest) || Less(g.largest, f.smallest)
  }

  lemma SortedApart(files: seq<FileMeta>)
    requires SortedFiles(files) && AllInOrder(files)
    requires forall f, g :: f in files && g in files && f != g ==> Apart(f, g)
    ensures DisjointSorted(files)
  {
    forall i, j | 0 <= i < j < |files|
      ensures Less(files[i].largest, files[j].smallest)
    {
      assert files[i] in files && files[j] in files;
      assert BySmallest(files[i], files[j]);
      assert Apart(files[i], files[j]);
    }
  }

  lemma DisjointApart(files: seq<FileMeta>, f: FileMeta, g: FileMeta)
    requires DisjointSorted(files) && f in files && g in files && f != g
    ensures Apart(f, g)
  {
    var i :| 0 <= i < |files| && files[i] == f;
    var j :| 0 <= j < |files| && files[j] == g;
    assert i < j ==> Less(files[i].largest, files[j].smallest);
    assert j < i ==> Less(files[j].largest, files[i].smallest);
  }

  lemma DisjointIsSorted(files: seq<FileMeta>)
    requires DisjointSorted(files)
    ensures SortedFiles(files)
  {
    forall i, j | 0 <= i < j < |files|
      ensures BySmallest(files[i], files[j])
    {
      assert files[i] in files;
    }
  }

  lemma OkFilesInOrder(t: Tables, files: seq<FileMeta>)
    requires forall f :: f in files ==> FileOk(t, f)
    ensures AllInOrder(files)
  {
    forall f | f in files
      ensures InOrder(f)
    {
      SortedIndex(Run(t, f), |Run(t, f)| - 1, 0);
    }
  }

  lemma LevelsSorted(t: Tables, v: Version)
    requires VersionOk(t, v)
    ensures forall l :: 0 <= l < NUM_LEVELS ==> SortedFiles(v[l])
  {
    forall l | 1 <= l < NUM_LEVELS
      ensures SortedFiles(v[l])
    {
      DisjointIsSorted(v[l]);
    }
  }

  // ------------------------------------------------------------------ the flush of a memtable

  /** The file's user keys do not meet those of any file of the levels up to `level`. */
  ghost predicate ClearDownTo(v: Version, level: nat, f: FileMeta)
    requires level < |v|
  {
    level > 0 ==> forall m, g :: 0 <= m <= level && g in v[m] ==> !Overlaps(g, Some(f.smallest.user), Some(f.largest.user))
  }

  lemma ApartUsersAbove(t: Tables, f: FileMeta, g: FileMeta)
    requires FileOk(t, f) && FileOk(t, g) && !Overlaps(g, Some(f.smallest.user), Some(f.largest.user))
    ensures Above(Run(t, g), Run(t, f)) && Apart(f, g)
  {
    forall x, y | x in Run(t, g) && y in Run(t, f)
      ensures x.key.user != y.key.user
    {
      EntryWithin(t, g, x);
      EntryWithin(t, f, y);
    }
  }

  /** One file joins one level. */
  ghost predicate Joined(v: Version, v': Version, level: nat, f: FileMeta) {
    && |v| == |v'| == NUM_LEVELS
    && (forall l :: 0 <= l < NUM_LEVELS ==> SortedFiles(v'[l]))
    && forall l, g :: 0 <= l < NUM_LEVELS ==> (g in v'[l] <==> g in v[l] || (l == level && g == f))
  }

  lemma JoinedLevels(t: Tables, v: Version, v': Version, level: nat, f: FileMeta)
    requires LevelsOk(v) && (forall l, g :: 0 <= l < |v| && g in v[l] ==> FileOk(t, g))
    requires FileOk(t, f) && level < NUM_LEVELS && Joined(v, v', level, f)
    requires level > 0 ==> forall g :: g in v[level] ==> Apart(f, g)
    ensures LevelsOk(v')
    ensures forall l, g :: 0 <= l < NUM_LEVELS && g in v'[l] ==> FileOk(t, g)
  {
    hide SortedFiles, FileOk, DisjointSorted;
    forall l | 0 <= l < NUM_LEVELS
      ensures AllInOrder(v'[l]) && (0 < l ==> DisjointSorted(v'[l]))
    {
      OkFilesInOrder(t, v'[l]);
      if 0 < l {
        forall a, b | a in v'[l] && b in v'[l] && a != b
          ensures Apart(a, b)
        {
          if a in v[l] && b in v[l] {
            DisjointApart(v[l], a, b);
          }
        }
        SortedApart(v'[l]);
      }
    }
  }

  lemma JoinedOrdered(t: Tables, v: Version, v': Version, level: nat, f: FileMeta)
    requires Ordered(t, v) && level < NUM_LEVELS && Joined(v, v', level, f)
    requires forall l, g :: 0 <= l < NUM_LEVELS && g in v[l] ==> g.number < f.number && Above(Run(t, f), Run(t, g))
    requires forall m, g :: 0 <= m < level && g in v[m] ==> Above(Run(t, g), Run(t, f))
    ensures Ordered(t, v')
  {
    hide Above, SortedFiles;
  }

  lemma FlushEdited(v: Version, v': Version, level: nat, f: FileMeta)
    requires Edited(v, v', FileEdit({}, [(level, f)]))
    ensures |v| == |v'| == NUM_LEVELS && forall l :: 0 <= l < NUM_LEVELS ==> SortedFiles(v'[l])
    ensures forall l, g :: 0 <= l < NUM_LEVELS ==> (g in v'[l] <==> g in v[l] || (l == level && g == f))
  {
    hide SortedFiles;
    forall l, g | 0 <= l < NUM_LEVELS
      ensures g in v'[l] <==> g in v[l] || (l == level && g == f)
    {
      assert (l, g) in [(level, f)] <==> l == level && g == f;
    }
  }

  /** A file made of the newest entries, placed where PickLevelForMemTableOutput allows. */
  lemma FlushKeepsOk(t: Tables, v: Version, v': Version, level: nat, f: FileMeta)
    requires VersionOk(t, v) && FileOk(t, f) && level < NUM_LEVELS
    requires forall l, g :: 0 <= l < NUM_LEVELS && g in v[l] ==> g.number < f.number && Above(Run(t, f), Run(t, g))
    requires ClearDownTo(v, level, f)
    requires Edited(v, v', FileEdit({}, [(level, f)]))
    ensures VersionOk(t, v') && Joined(v, v', level, f)
  {
    hide Above, Ordered, LevelsOk, FileOk, SortedFiles, Apart, Overlaps, Edited;
    FlushEdited(v, v', level, f);
    forall m, g | level > 0 && 0 <= m <= level && g in v[m]
      ensures Above(Run(t, g), Run(t, f)) && Apart(f, g)
    {
      ApartUsersAbove(t, f, g);
    }
    JoinedLevels(t, v, v', level, f);
    JoinedOrdered(t, v, v', level, f);
  }

  // ------------------------------------------------------------------ sinking files one level down

  /** The inputs leave their levels and `outs` join the lower one. */
  ghost predicate Sunk(v: Version, v': Version, c: Inputs, outs: seq<FileMeta>) {
    && |v| == |v'| == NUM_LEVELS && c.level + 1 < NUM_LEVELS
    && (forall l :: 0 <= l < NUM_LEVELS ==> SortedFiles(v'[l]))
    && forall l, g :: 0 <= l < NUM_LEVELS ==>
         (g in v'[l] <==> Stays(v, c, l, g) || (l == c.level + 1 && g in outs))
  }

  /** The file is on level `l` and not an input. */
  predicate Stays(v: Version, c: Inputs, l: nat, g: FileMeta)
    requires l < |v|
  {
    g in v[l] && !(l == c.level && g in c.inputs0) && !(l == c.level + 1 && g in c.inputs1)
  }

  ghost function InputEntries(t: Tables, c: Inputs): set<Entry> {
    FilesEntries(t, c.inputs0) + FilesEntries(t, c.inputs1)
  }

  /** The outputs are disjoint sorted tables made of input entries, and a number they
      share with a file of the version is that of an upper input. */
  ghost predicate OutputsOk(t: Tables, v: Version, t': Tables, c: Inputs, outs: seq<FileMeta>) {
    && (forall o :: o in outs ==> FileOk(t', o))
    && (forall o, p :: o in outs && p in outs && o != p ==> Apart(o, p) && o.number != p.number)
    && (forall o, e :: o in outs && e in Run(t', o) ==> e in InputEntries(t, c))
    && (forall o, l, g :: o in outs && 0 <= l < |v| && g in v[l] && g.number == o.number ==> l == c.level && g in c.inputs0)
  }

  /** The tables of the version's files have not changed. */
  ghost predicate SameRuns(t: Tables, t': Tables, v: Version) {
    forall l, g :: 0 <= l < |v| && g in v[l] ==> Run(t', g) == Run(t, g)
  }

  /** Every entry of the run is one of the writes. */
  ghost predicate RunWritten(h: seq<Entry>, r: seq<Entry>) {
    forall e :: e in r ==> Written(h, e)
  }

  ghost predicate VersionWritten(h: seq<Entry>, t: Tables, v: Version) {
    forall l, f :: 0 <= l < |v| && f in v[l] ==> RunWritten(h, Run(t, f))
  }

  lemma VersionFile(h: seq<Entry>, t: Tables, v: Version, l: nat, f: FileMeta)
    requires VersionOk(t, v) && VersionWritten(h, t, v) && l < |v| && f in v[l]
    ensures FileOk(t, f) && RunWritten(h, Run(t, f))
  {
  }

  lemma KeepsAheadAbove(h: seq<Entry>, t: Tables, f: FileMeta, d: FileMeta)
    requires FileOk(t, f) && FileOk(t, d) && KeepsAhead(f, d)
    requires RunWritten(h, Run(t, f)) && RunWritten(h, Run(t, d))
    ensures Above(Run(t, f), Run(t, d))
  {
    forall x, y | x in Run(t, f) && y in Run(t, d) && x.key.user == y.key.user
      ensures x.key.sequence > y.key.sequence
    {
      EntryWithin(t, f, x);
      EntryWithin(t, d, y);
      assert Less(x.key, y.key);
      assert Written(h, x) && Written(h, y);
    }
  }

  /** The range of the upper inputs, which selects the lower ones. */
  lemma InputRange(next: seq<FileMeta>, inputs0: seq<FileMeta>, inputs1: seq<FileMeta>)
    returns (s: InternalKey, l: InternalKey)
    requires CoversNext(next, inputs0, inputs1)
    ensures IsSmallest(inputs0, s) && IsLargest(inputs0, l)
    ensures inputs1 == Overlapping(next, Some(s.user), Some(l.user))
  {
    hide IsSmallest, IsLargest, Overlapping;
    s, l :| IsSmallest(inputs0, s) && IsLargest(inputs0, l) && inputs1 == Overlapping(next, Some(s.user), Some(l.user));
  }

  /** A file of the lower level that is not an input lies before all input entries or after them. */
  lemma BesideInputs(t: Tables, v: Version, c: Inputs, g: FileMeta)
    requires InputsOk(v, c) && (forall l, f :: 0 <= l < |v| && f in v[l] ==> FileOk(t, f))
    requires g in v[c.level + 1] && g !in c.inputs1
    ensures (forall e :: e in InputEntries(t, c) ==> Less(g.largest, e.key)) ||
            (forall e :: e in InputEntries(t, c) ==> Less(e.key, g.smallest))
  {
    hide IsSmallest, IsLargest, MaySink, Selected, CoversNext, DisjointSorted, Less, FileOk, Overlapping, InputEntries;
    var s, l := InputRange(v[c.level + 1], c.inputs0, c.inputs1);
    OverlappingIff(v[c.level + 1], Some(s.user), Some(l.user), g);
    if g.largest.user < s.user {
      forall e | e in InputEntries(t, c)
        ensures Less(g.largest, e.key)
      {
        InputBeside(t, v, c, g, s, l, e);
      }
    } else {
      forall e | e in InputEntries(t, c)
        ensures Less(e.key, g.smallest)
      {
        InputBeside(t, v, c, g, s, l, e);
      }
    }
  }

  lemma InputBeside(t: Tables, v: Version, c: Inputs, g: FileMeta, s: InternalKey, l: InternalKey, e: Entry)
    requires InputsOk(v, c) && (forall l, f :: 0 <= l < |v| && f in v[l] ==> FileOk(t, f))
    requires IsSmallest(c.inputs0, s) && IsLargest(c.inputs0, l)
    requires c.inputs1 == Overlapping(v[c.level + 1], Some(s.user), Some(l.user))
    requires g in v[c.level + 1] && g !in c.inputs1 && e in InputEntries(t, c)
    ensures g.largest.user < s.user ==> Less(g.largest, e.key)
    ensures l.user < g.smallest.user ==> Less(e.key, g.smallest)
  {
    hide IsSmallest, IsLargest, MaySink, Selected, CoversNext, DisjointSorted, Less, FileOk;
    var next := v[c.level + 1];
    if e in FilesEntries(t, c.inputs0) {
      var f :| f in c.inputs0 && e in Run(t, f);
      UpperBeside(t, v, c, g, s, l, f, e);
    } else {
      var f :| f in c.inputs1 && e in Run(t, f);
      OverlappingIff(next, Some(s.user), Some(l.user), f);
      LowerBeside(t, next, g, s.user, l.user, f, e);
    }
  }

  lemma InputsInLevels(v: Version, c: Inputs)
    requires InputsOk(v, c)
    ensures |v| == NUM_LEVELS && c.level + 1 < NUM_LEVELS
    ensures forall f :: f in c.inputs0 ==> f in v[c.level]
    ensures forall f :: f in c.inputs1 ==> f in v[c.level + 1]
  {
    var next := v[c.level + 1];
    var s, l := InputRange(v[c.level + 1], c.inputs0, c.inputs1);
    forall f | f in c.inputs1
      ensures f in next
    {
      OverlappingIff(next, Some(s.user), Some(l.user), f);
    }
  }

  lemma UpperBeside(t: Tables, v: Version, c: Inputs, g: FileMeta, s: InternalKey, l: InternalKey, f: FileMeta, e: Entry)
    requires c.level < |v| && f in c.inputs0 && e in Run(t, f) && FileOk(t, f)
    requires IsSmallest(c.inputs0, s) && IsLargest(c.inputs0, l)
    ensures g.largest.user < s.user ==> Less(g.largest, e.key)
    ensures l.user < g.smallest.user ==> Less(e.key, g.smallest)
  {
    EntryWithin(t, f, e);
  }

  lemma LowerBeside(t: Tables, next: seq<FileMeta>, g: FileMeta, lo: UserKey, hi: UserKey, f: FileMeta, e: Entry)
    requires DisjointSorted(next) && g in next && f in next && g != f
    requires FileOk(t, f) && e in Run(t, f) && FileOk(t, g) && Overlaps(f, Some(lo), Some(hi))
    ensures g.largest.user < lo ==> Less(g.largest, e.key)
    ensures hi < g.smallest.user ==> Less(e.key, g.smallest)
  {
    DisjointApart(next, f, g);
    EntryWithin(t, f, e);
    assert InOrder(g) && InOrder(f);
  }

  /** An output and a remaining file of the lower level do not overlap. */
  lemma OutputBeside(t: Tables, v: Version, t': Tables, c: Inputs, outs: seq<FileMeta>, o: FileMeta, g: FileMeta)
    requires InputsOk(v, c) && (forall l, f :: 0 <= l < |v| && f in v[l] ==> FileOk(t, f))
    requires OutputsOk(t, v, t', c, outs) && o in outs
    requires g in v[c.level + 1] && g !in c.inputs1
    ensures Apart(o, g)
  {
    BesideInputs(t, v, c, g);
    var r := Run(t', o);
    assert r[0] in r && r[|r| - 1] in r;
  }

  /** The levels stay sorted and disjoint in internal-key order. */
  lemma SinkLevels(t: Tables, v: Version, t': Tables, v': Version, c: Inputs, outs: seq<FileMeta>)
    requires InputsOk(v, c) && (forall l, f :: 0 <= l < |v| && f in v[l] ==> FileOk(t, f))
    requires OutputsOk(t, v, t', c, outs) && SameRuns(t, t', v) && Sunk(v, v', c, outs)
    ensures forall l, f :: 0 <= l < NUM_LEVELS && f in v'[l] ==> FileOk(t', f)
    ensures LevelsOk(v')
  {
    hide SortedFiles, DisjointSorted, MaySink, CoversNext, Less, Selected;
    forall l | 0 <= l < NUM_LEVELS
      ensures AllInOrder(v'[l]) && (0 < l ==> DisjointSorted(v'[l]))
      ensures forall f :: f in v'[l] ==> FileOk(t', f)
    {
      forall f | f in v'[l]
        ensures FileOk(t', f)
      {
        if Stays(v, c, l, f) {
          assert FileOk(t, f) && Run(t', f) == Run(t, f);
        }
      }
      OkFilesInOrder(t', v'[l]);
      if 0 < l {
        SinkApart(t, v, t', v', c, outs, l);
        SortedApart(v'[l]);
      }
    }
  }

  lemma SinkApart(t: Tables, v: Version, t': Tables, v': Version, c: Inputs, outs: seq<FileMeta>, l: nat)
    requires InputsOk(v, c) && (forall l, f :: 0 <= l < |v| && f in v[l] ==> FileOk(t, f))
    requires OutputsOk(t, v, t', c, outs) && Sunk(v, v', c, outs) && 0 < l < NUM_LEVELS
    ensures forall a, b :: a in v'[l] && b in v'[l] && a != b ==> Apart(a, b)
  {
    hide SortedFiles, DisjointSorted, FileOk, MaySink, CoversNext, Less, Selected, InputEntries;
    forall a, b | a in v'[l] && b in v'[l] && a != b
      ensures Apart(a, b)
    {
      var outA, outB := !Stays(v, c, l, a), !Stays(v, c, l, b);
      if !outA && !outB {
        DisjointApart(v[l], a, b);
      } else if outA && !outB {
        OutputBeside(t, v, t', c, outs, a, b);
      } else if outB && !outA {
        OutputBeside(t, v, t', c, outs, b, a);
      }
    }
  }

  lemma SinkUnique(t: Tables, v: Version, t': Tables, v': Version, c: Inputs, outs: seq<FileMeta>)
    requires UniqueNumbers(v) && OutputsOk(t, v, t', c, outs) && Sunk(v, v', c, outs)
    ensures UniqueNumbers(v')
  {
    hide SortedFiles, FileOk, Apart;
    forall l, m, f, g | 0 <= l < |v'| && 0 <= m < |v'| && f in v'[l] && g in v'[m] && f.number == g.number
      ensures f == g && l == m
    {
      assert Stays(v, c, l, f) || (l == c.level + 1 && f in outs);
      assert Stays(v, c, m, g) || (m == c.level + 1 && g in outs);
    }
  }

  /** A file that stays above the lower level is newer than the inputs; one further down is older. */
  lemma StayingOrdered(h: seq<Entry>, t: Tables, v: Version, c: Inputs, l: nat, g: FileMeta, x: Entry, d: Entry)
    requires InputsOk(v, c) && (forall l, f :: 0 <= l < |v| && f in v[l] ==> FileOk(t, f))
    requires Ordered(t, v) && VersionWritten(h, t, v)
    requires l < |v| && Stays(v, c, l, g) && x in Run(t, g) && d in InputEntries(t, c) && x.key.user == d.key.user
    ensures l <= c.level ==> x.key.sequence > d.key.sequence
    ensures l > c.level + 1 ==> d.key.sequence > x.key.sequence
  {
    InputsInLevels(v, c);
    hide DisjointSorted, FileOk, CoversNext, Less, Selected;
    if d in FilesEntries(t, c.inputs0) {
      var f :| f in c.inputs0 && d in Run(t, f);
      if l == c.level {
        KeepsAheadAbove(h, t, g, f);
      } else if l < c.level {
        assert Above(Run(t, g), Run(t, f));
      } else {
        assert Above(Run(t, f), Run(t, g));
      }
    } else {
      var f :| f in c.inputs1 && d in Run(t, f);
      if l <= c.level {
        assert Above(Run(t, g), Run(t, f));
      } else if l > c.level + 1 {
        assert Above(Run(t, f), Run(t, g));
      }
    }
  }

  lemma OutputOrdered(h: seq<Entry>, t: Tables, v: Version, t': Tables, c: Inputs, outs: seq<FileMeta>,
                      o: FileMeta, l: nat, g: FileMeta)
    requires InputsOk(v, c) && (forall l, f :: 0 <= l < |v| && f in v[l] ==> FileOk(t, f))
    requires Ordered(t, v) && VersionWritten(h, t, v)
    requires OutputsOk(t, v, t', c, outs) && o in outs && l < |v| && Stays(v, c, l, g)
    ensures l <= c.level ==> Above(Run(t, g), Run(t', o))
    ensures l > c.level + 1 ==> Above(Run(t', o), Run(t, g))
  {
    hide InputsOk, FileOk, Ordered, VersionWritten, InputEntries;
    forall x, y | x in Run(t, g) && y in Run(t', o) && x.key.user == y.key.user
      ensures l <= c.level ==> x.key.sequence > y.key.sequence
      ensures l > c.level + 1 ==> y.key.sequence > x.key.sequence
    {
      StayingOrdered(h, t, v, c, l, g, x, y);
    }
  }

  lemma SinkOrdered(h: seq<Entry>, t: Tables, v: Version, t': Tables, v': Version, c: Inputs, outs: seq<FileMeta>)
    requires InputsOk(v, c) && (forall l, f :: 0 <= l < |v| && f in v[l] ==> FileOk(t, f))
    requires Ordered(t, v) && VersionWritten(h, t, v)
    requires OutputsOk(t, v, t', c, outs) && SameRuns(t, t', v) && Sunk(v, v', c, outs)
    ensures Ordered(t', v')
  {
    hide SortedFiles, DisjointSorted, FileOk, MaySink, CoversNext, Less, Selected, InputEntries, Above, Apart;
    forall l, m, f, g | 0 <= l < m < |v'| && f in v'[l] && g in v'[m]
      ensures Above(Run(t', f), Run(t', g))
    {
      if !Stays(v, c, l, f) {
        if Stays(v, c, m, g) {
          OutputOrdered(h, t, v, t', c, outs, f, m, g);
        }
      } else if !Stays(v, c, m, g) {
        OutputOrdered(h, t, v, t', c, outs, g, l, f);
      } else {
        assert Above(Run(t, f), Run(t, g));
      }
    }
    forall f, g | f in v'[0] && g in v'[0] && f.number > g.number
      ensures Above(Run(t', f), Run(t', g))
    {
      assert Stays(v, c, 0, f) && Stays(v, c, 0, g);
    }
  }

  /** A trivial move or a compaction keeps the version in order. */
  lemma SinkKeepsOk(h: seq<Entry>, t: Tables, v: Version, t': Tables, v': Version, c: Inputs, outs: seq<FileMeta>)
    requires VersionOk(t, v) && InputsOk(v, c) && VersionWritten(h, t, v)
    requires OutputsOk(t, v, t', c, outs) && SameRuns(t, t', v) && Sunk(v, v', c, outs)
    ensures VersionOk(t', v')
  {
    SinkLevels(t, v, t', v', c, outs);
    SinkUnique(t, v, t', v', c, outs);
    SinkOrdered(h, t, v, t', v', c, outs);
  }
}
