/** When the drop rules are safe: SetupOtherInputs closes the upper inputs over shared
    boundary user keys but not the lower ones. */
module Boundary {
  import opened Keys
  import opened History
  import opened Files
  import opened Compactions
  import opened CompactionWork
  import opened Lsm
  import opened Install
  import opened Reads

  /** No file of the lower level follows the lower inputs with their largest user key:
      AddBoundaryInputs would not extend them. */
  ghost predicate LowerClosed(v: Version, c: Inputs)
    requires c.level + 1 < |v|
  {
    forall k :: IsLargest(c.inputs1, k) ==> NoBoundary(v[c.level + 1], k)
  }

  lemma LowerMaySink(v: Version, c: Inputs)
    requires InputsOk(v, c) && LowerClosed(v, c)
    ensures MaySink(v[c.level + 1], c.inputs1)
  {
    var next := v[c.level + 1];
    var s, l := InputRange(next, c.inputs0, c.inputs1);
    var a, b := OverlappingIsSlice(next, Some(s.user), Some(l.user));
    assert IsSlice(c.inputs1, next);
    if a < b {
      SliceEnds(next, a, b);
      SliceMaySink(next, c.inputs1, next[b - 1].largest);
    }
  }

  lemma SliceEnds(files: seq<FileMeta>, a: nat, b: nat)
    requires DisjointSorted(files) && a < b <= |files|
    ensures IsLargest(files[a..b], files[b - 1].largest)
  {
    assert files[b - 1] in files[a..b] && files[b - 1] in files;
    forall f | f in files[a..b]
      ensures !Less(files[b - 1].largest, f.largest)
    {
      var i :| a <= i < b && files[i] == f;
      assert i == b - 1 || Less(files[i].largest, files[b - 1].smallest);
    }
  }

  /** A left-out file has no user key within the range of the upper inputs. */
  lemma LeftBesideUpper(t: Tables, c: Inputs, next: seq<FileMeta>, s: InternalKey, l: InternalKey,
                        g: FileMeta, f: FileMeta, x: Entry, d: Entry)
    requires FileOk(t, f) && FileOk(t, g) && x in Run(t, g) && d in Run(t, f)
    requires f in c.inputs0 && IsSmallest(c.inputs0, s) && IsLargest(c.inputs0, l)
    requires !Overlaps(g, Some(s.user), Some(l.user))
    ensures x.key.user != d.key.user
  {
    EntryWithin(t, g, x);
    EntryWithin(t, f, d);
  }

  lemma LeftBesideInputs(t: Tables, v: Version, c: Inputs, g: FileMeta, f: FileMeta, x: Entry, d: Entry)
    requires InputsOk(v, c) && g in v[c.level + 1] && g !in c.inputs1 && f in c.inputs0
    requires FileOk(t, f) && FileOk(t, g) && x in Run(t, g) && d in Run(t, f)
    ensures x.key.user != d.key.user
  {
    hide FileOk, DisjointSorted, AllInOrder, MaySink, Selected, IsSmallest, IsLargest, Overlaps;
    var next := v[c.level + 1];
    var s, l := InputRange(next, c.inputs0, c.inputs1);
    OverlappingIff(next, Some(s.user), Some(l.user), g);
    LeftBesideUpper(t, c, next, s, l, g, f, x, d);
  }

  lemma LeftAboveInputs(h: seq<Entry>, t: Tables, v: Version, c: Inputs, g: FileMeta, f: FileMeta, x: Entry, d: Entry)
    requires c.level + 1 < |v| && MaySink(v[c.level + 1], c.inputs1)
    requires g in v[c.level + 1] && g !in c.inputs1 && f in c.inputs1
    requires FileOk(t, f) && FileOk(t, g) && RunWritten(h, Run(t, f)) && RunWritten(h, Run(t, g))
    requires x in Run(t, g) && d in Run(t, f) && x.key.user == d.key.user
    ensures x.key.sequence > d.key.sequence
  {
    KeepsAheadAbove(h, t, g, f);
  }

  /** With the lower inputs closed, an entry left out of the lower level is newer than
      every input entry of its user key. */
  lemma LeftIsNewer(h: seq<Entry>, t: Tables, v: Version, c: Inputs, x: Entry, d: Entry)
    requires VersionOk(t, v) && InputsOk(v, c) && VersionWritten(h, t, v) && MaySink(v[c.level + 1], c.inputs1)
    requires x in LeftEntries(t, v, c) && d in InputEntries(t, c) && x.key.user == d.key.user
    ensures x.key.sequence > d.key.sequence
  {
    hide VersionOk, InputsOk, VersionWritten, FileOk, MaySink, LeftEntries, InputEntries;
    InputsInLevels(v, c);
    var g := LeftFile(t, v, c, x);
    VersionFile(h, t, v, c.level + 1, g);
    var f := InputFile(t, v, c, d);
    if f in c.inputs1 {
      VersionFile(h, t, v, c.level + 1, f);
      LeftAboveInputs(h, t, v, c, g, f, x, d);
    } else {
      VersionFile(h, t, v, c.level, f);
      LeftBesideInputs(t, v, c, g, f, x, d);
    }
  }

  lemma LeftFile(t: Tables, v: Version, c: Inputs, x: Entry) returns (g: FileMeta)
    requires c.level + 1 < |v| && x in LeftEntries(t, v, c)
    ensures g in v[c.level + 1] && g !in c.inputs1 && x in Run(t, g)
  {
    g :| g in v[c.level + 1] && g !in c.inputs1 && x in Run(t, g);
  }

  lemma InputFile(t: Tables, v: Version, c: Inputs, d: Entry) returns (f: FileMeta)
    requires d in InputEntries(t, c)
    ensures (f in c.inputs0 || f in c.inputs1) && d in Run(t, f)
  {
    if d in FilesEntries(t, c.inputs0) {
      f :| f in c.inputs0 && d in Run(t, f);
    } else {
      f :| f in c.inputs1 && d in Run(t, f);
    }
  }

  /** Closed lower inputs make every user key safe, so the compaction preserves all reads. */
  lemma LowerClosedIsSafe(h: seq<Entry>, newer: set<Entry>, t: Tables, v: Version, c: Inputs, s: SequenceNumber)
    requires VersionOk(t, v) && InputsOk(v, c) && VersionWritten(h, t, v) && LowerClosed(v, c)
    ensures forall k :: SafeKey(newer + StayingEntries(t, v, c), LeftEntries(t, v, c), InputEntries(t, c), s,
                                BaseKeys(v, c.level), k)
  {
    LowerMaySink(v, c);
    LeftStays(t, v, c);
    hide VersionOk, InputsOk, LeftEntries, StayingEntries, InputEntries, BaseKeys, VersionWritten, MaySink;
    forall k
      ensures SafeKey(newer + StayingEntries(t, v, c), LeftEntries(t, v, c), InputEntries(t, c), s, BaseKeys(v, c.level), k)
    {
      var n := NewestOf(newer + StayingEntries(t, v, c) + InputEntries(t, c), k, s);
      var q := NewestOf(LeftEntries(t, v, c), k, s);
      if n.Some? && n.value in InputEntries(t, c) && q.Some? {
        LeftIsNewer(h, t, v, c, q.value, n.value);
      }
    }
  }

  // ------------------------------------------------------------------ the input that fails

  const WRITES: seq<Entry> := [
    Entry(InternalKey(1.0, 1, TypeValue), "a"),
    Entry(InternalKey(2.0, 2, TypeValue), "x"),
    Entry(InternalKey(2.0, 3, TypeDeletion), ""),
    Entry(InternalKey(1.0, 4, TypeValue), "b")]

  const TABLES: Tables := map[
    10 := [WRITES[0], WRITES[2]],
    11 := [WRITES[1]],
    12 := [WRITES[3]]]

  const FILE10 := FileMeta(10, 1, WRITES[0].key, WRITES[2].key)
  const FILE11 := FileMeta(11, 1, WRITES[1].key, WRITES[1].key)
  const FILE12 := FileMeta(12, 1, WRITES[3].key, WRITES[3].key)

  /** The deletion of key 2 ends file 10 of level 2; the value it deletes starts file 11. */
  const SPLIT: Version := [[], [FILE12], [FILE10, FILE11], [], [], [], []]

  /** Compacting file 12 of level 1 brings in file 10, but not file 11. */
  const SINKING := Inputs(1, [FILE12], [FILE10], [], WRITES[3].key)

  lemma SplitFiles(l: nat, f: FileMeta)
    requires l < |SPLIT| && f in SPLIT[l]
    ensures (l == 1 && f == FILE12) || (l == 2 && (f == FILE10 || f == FILE11))
  {
    assert l == 0 || l == 1 || l == 2 || l == 3 || l == 4 || l == 5 || l == 6;
  }

  lemma SplitRuns()
    ensures FileOk(TABLES, FILE10) && FileOk(TABLES, FILE11) && FileOk(TABLES, FILE12)
    ensures Run(TABLES, FILE10) == [WRITES[0], WRITES[2]]
    ensures Run(TABLES, FILE11) == [WRITES[1]] && Run(TABLES, FILE12) == [WRITES[3]]
  {
  }

  lemma SplitUnique()
    ensures UniqueNumbers(SPLIT)
  {
    forall l, m, f, g | 0 <= l < |SPLIT| && 0 <= m < |SPLIT| && f in SPLIT[l] && g in SPLIT[m] && f.number == g.number
      ensures f == g && l == m
    {
      SplitFiles(l, f);
      SplitFiles(m, g);
    }
  }

  lemma SplitOrdered()
    ensures Ordered(TABLES, SPLIT)
  {
    SplitAbove();
    hide Above;
    forall l, m, f, g | 0 <= l < m < |SPLIT| && f in SPLIT[l] && g in SPLIT[m]
      ensures Above(Run(TABLES, f), Run(TABLES, g))
    {
      SplitFiles(l, f);
      SplitFiles(m, g);
    }
  }

  /** The split version satisfies every invariant. */
  lemma SplitOk()
    ensures Numbered(WRITES) && VersionOk(TABLES, SPLIT) && VersionWritten(WRITES, TABLES, SPLIT)
  {
    SplitRuns();
    hide FileOk, Ordered, UniqueNumbers, LevelsOk;
    forall l, f | 0 <= l < |SPLIT| && f in SPLIT[l]
      ensures FileOk(TABLES, f) && RunWritten(WRITES, Run(TABLES, f))
    {
      SplitFiles(l, f);
    }
    SplitLevels();
    SplitUnique();
    SplitOrdered();
  }

  lemma SplitAbove()
    ensures Above(Run(TABLES, FILE12), Run(TABLES, FILE10)) && Above(Run(TABLES, FILE12), Run(TABLES, FILE11))
  {
    SplitRuns();
  }

  lemma SplitLevels()
    ensures LevelsOk(SPLIT) && SortedFiles(SPLIT[0])
  {
    assert DisjointSorted([FILE10, FILE11]) && DisjointSorted([FILE12]) && DisjointSorted([]);
  }

  lemma SinkingOk()
    ensures InputsOk(SPLIT, SINKING)
  {
    assert IsSmallest([FILE12], WRITES[3].key) && IsLargest([FILE12], WRITES[3].key) by {
      assert FILE12 in [FILE12];
    }
    assert SPLIT[1][0..1] == [FILE12];
    assert [FILE10, FILE11][..1] == [FILE10] && [FILE10][..0] == [];
    assert Overlapping([FILE10], Some(1.0), Some(1.0)) == [FILE10];
    assert Overlapping([FILE10, FILE11], Some(1.0), Some(1.0)) == [FILE10];
  }

  /** The merged inputs: the newer and the older value of key 1, then the deletion of key 2. */
  const MERGED: seq<Entry> := [WRITES[3], WRITES[0], WRITES[2]]

  lemma MergedOk()
    ensures Compacting(WRITES, TABLES, SPLIT, SINKING, MERGED)
    ensures VersionOk(TABLES, SPLIT) && InputsOk(SPLIT, SINKING)
  {
    SplitOk();
    SinkingOk();
    SplitRuns();
    hide VersionOk, InputsOk, VersionWritten, FileOk, Run;
    forall e
      ensures e in MERGED <==> e in InputEntries(TABLES, SINKING)
    {
      assert FILE12 in SINKING.inputs0 && FILE10 in SINKING.inputs1;
      if e in FilesEntries(TABLES, SINKING.inputs0) {
        assert e in Run(TABLES, FILE12);
      }
      if e in FilesEntries(TABLES, SINKING.inputs1) {
        assert e in Run(TABLES, FILE10);
      }
      if e in MERGED {
        assert e in Run(TABLES, FILE12) || e in Run(TABLES, FILE10);
      }
    }
  }

  lemma OnlyFile11Stays(e: Entry)
    ensures e in StayingEntries(TABLES, SPLIT, SINKING) <==> e == WRITES[1]
    ensures e in LeftEntries(TABLES, SPLIT, SINKING) <==> e == WRITES[1]
  {
    SplitRuns();
    hide FileOk;
    assert FILE11 in SPLIT[2] && Stays(SPLIT, SINKING, 2, FILE11);
    assert e == WRITES[1] <==> e in Run(TABLES, FILE11);
    if e in StayingEntries(TABLES, SPLIT, SINKING) {
      var l, f :| 0 <= l < |SPLIT| && f in SPLIT[l] && Stays(SPLIT, SINKING, l, f) && e in Run(TABLES, f);
      SplitFiles(l, f);
    }
  }

  /** In this version, with no snapshot, key 2 reads as deleted, as it should; after
      the compaction its old value is back. */
  lemma Resurrection()
    ensures VersionOk(TABLES, SPLIT) && InputsOk(SPLIT, SINKING) && !LowerClosed(SPLIT, SINKING)
    ensures ReadAt(WRITES, 2.0, 4) == None
    ensures Read(LevelsEntries(TABLES, SPLIT), 2.0, 4) == None
    ensures Read(StayingEntries(TABLES, SPLIT, SINKING) + AllOf(Kept(MERGED, 4, SPLIT, 1, |MERGED|)), 2.0, 4) == Some("x")
  {
    MergedOk();
    NotClosed();
    DeletedRead();
    hide VersionOk, InputsOk, Compacting, StayingEntries, LeftEntries, InputEntries, LevelsEntries, Kept, Thinned, LowerClosed;
    var rest, left := StayingEntries(TABLES, SPLIT, SINKING), LeftEntries(TABLES, SPLIT, SINKING);
    var input, output := InputEntries(TABLES, SINKING), AllOf(Kept(MERGED, 4, SPLIT, 1, |MERGED|));
    EntriesBefore(TABLES, SPLIT, SINKING);
    CompactionThins(WRITES, {}, TABLES, SPLIT, SINKING, MERGED, 4);
    assert {} + rest == rest;
    SplitSets();
    ResurrectionReads(rest, left, input, output);
  }

  lemma SplitSets()
    ensures forall e :: e in StayingEntries(TABLES, SPLIT, SINKING) <==> e == WRITES[1]
    ensures forall e :: e in LeftEntries(TABLES, SPLIT, SINKING) <==> e == WRITES[1]
    ensures forall e :: e in InputEntries(TABLES, SINKING) <==> e in MERGED
  {
    MergedOk();
    hide VersionOk, InputsOk, StayingEntries, LeftEntries, InputEntries;
    forall e
      ensures e in StayingEntries(TABLES, SPLIT, SINKING) <==> e == WRITES[1]
      ensures e in LeftEntries(TABLES, SPLIT, SINKING) <==> e == WRITES[1]
      ensures e in InputEntries(TABLES, SINKING) <==> e in MERGED
    {
      OnlyFile11Stays(e);
      assert e in AllOf(MERGED) <==> e in MERGED;
    }
  }

  lemma ResurrectionReads(rest: set<Entry>, left: set<Entry>, input: set<Entry>, output: set<Entry>)
    requires Thinned(rest, left, input, output, 4, BaseKeys(SPLIT, 1))
    requires forall e :: e in rest <==> e == WRITES[1]
    requires forall e :: e in left <==> e == WRITES[1]
    requires forall e :: e in input <==> e in MERGED
    ensures Read(rest + input, 2.0, 4) == None
    ensures Read(rest + output, 2.0, 4) == Some("x")
  {
    NoneDeeper();
    hide Thinned, BaseLevel;
    var n := WRITES[2];
    assert Newest(rest + input, 2.0, 4, Some(n));
    assert ObsoleteIn(n, 4, BaseKeys(SPLIT, 1));
    assert Distinct(rest + input);
    BehindDeletion(rest, left, input, output, 4, BaseKeys(SPLIT, 1), 2.0, 4, n);
    assert Newest(left, 2.0, 4, Some(WRITES[1]));
    NewestUnique(left, 2.0, 4, NewestOf(left, 2.0, 4), Some(WRITES[1]));
  }

  lemma NoneDeeper()
    ensures BaseLevel(SPLIT, 1, 2.0)
  {
    assert forall l :: 3 <= l < NUM_LEVELS ==> SPLIT[l] == [];
  }

  lemma NotClosed()
    ensures !LowerClosed(SPLIT, SINKING)
  {
    assert FILE10 in SINKING.inputs1 && IsLargest(SINKING.inputs1, WRITES[2].key);
    assert FILE11 in SPLIT[2] && IsBoundary(FILE11, WRITES[2].key);
  }

  lemma DeletedRead()
    ensures ReadAt(WRITES, 2.0, 4) == None
  {
    assert WRITES[..3][..2] == WRITES[..2];
    assert Replay(WRITES[..3]) == Replay(WRITES[..2]) - {2.0};
  }
}
