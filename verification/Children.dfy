/** The child iterators behind a merged view of several places: memtables, level-0
    files one by one, and each deeper level as one concatenation of its files. */
module Children {
  import opened Keys
  import opened History
  import opened Files
  import opened Compactions
  import opened Lsm
  import opened Install
  import opened Merger
  import opened Reads

  // ------------------------------------------------------------------ sorted unions

  /** Every set of entries with distinct keys has a sorted list. */
  lemma {:induction false} SortSet(es: set<Entry>) returns (r: seq<Entry>)
    requires Distinct(es)
    ensures Sorted(r) && AllOf(r) == es
    decreases es
  {
    r := [];
    if e :| e in es {
      var q := SortSet(es - {e});
      assert forall x :: x in q <==> x in es - {e} by {
        assert forall x :: x in q <==> x in AllOf(q);
      }
      InsertEntryOk(q, e);
      r := InsertEntry(q, e);
      hide InsertEntry;
      assert forall x :: x in AllOf(r) <==> x in es;
    }
  }

  ghost function RunsEntries(runs: seq<seq<Entry>>): set<Entry> {
    set i, e | 0 <= i < |runs| && e in runs[i] :: e
  }

  /** Sorted runs without a common entry. */
  ghost predicate RunsOk(runs: seq<seq<Entry>>) {
    && (forall i :: 0 <= i < |runs| ==> Sorted(runs[i]))
    && (forall i, j, e :: 0 <= i < j < |runs| && e in runs[i] ==> e !in runs[j])
  }

  lemma RunsInterleave(runs: seq<seq<Entry>>, contents: seq<Entry>)
    requires RunsOk(runs) && Sorted(contents) && AllOf(contents) == RunsEntries(runs)
    ensures Interleaves(runs, contents)
  {
    hide Sorted;
    forall i | 0 <= i < |runs|
      ensures Within(runs[i], contents)
    {
      forall j | 0 <= j < |runs[i]|
        ensures runs[i][j] in contents
      {
        assert runs[i][j] in runs[i];
        assert runs[i][j] in RunsEntries(runs);
        InAllOf(contents, runs[i][j]);
      }
    }
    forall p | 0 <= p < |contents|
      ensures HeldBySome(runs, contents[p])
    {
      InAllOf(contents, contents[p]);
      assert contents[p] in RunsEntries(runs);
    }
  }

  // ------------------------------------------------------------------ concatenations of files

  /** The tables of the files, one after the other. */
  function Concat(t: Tables, files: seq<FileMeta>): seq<Entry> {
    if files == [] then [] else Concat(t, files[..|files| - 1]) + Run(t, files[|files| - 1])
  }

  lemma {:induction false} ConcatMembers(t: Tables, files: seq<FileMeta>, e: Entry)
    ensures e in Concat(t, files) <==> exists f :: f in files && e in Run(t, f)
  {
    if files != [] {
      var n := |files| - 1;
      ConcatMembers(t, files[..n], e);
      assert files == files[..n] + [files[n]];
    }
  }

  lemma SortedJoin(a: seq<Entry>, b: seq<Entry>)
    requires Sorted(a) && Sorted(b) && forall x, y :: x in a && y in b ==> Less(x.key, y.key)
    ensures Sorted(a + b)
  {
    var q := a + b;
    forall i, j | 0 <= i < j < |q|
      ensures Less(q[i].key, q[j].key)
    {
      if j < |a| {
        assert Less(a[i].key, a[j].key);
      } else if i < |a| {
        assert q[i] in a && q[j] in b;
      } else {
        assert Less(b[i - |a|].key, b[j - |a|].key);
      }
    }
  }

  lemma EntriesApart(t: Tables, f: FileMeta, g: FileMeta, x: Entry, y: Entry)
    requires FileOk(t, f) && FileOk(t, g) && Less(f.largest, g.smallest) && x in Run(t, f) && y in Run(t, g)
    ensures Less(x.key, y.key)
  {
    EntryWithin(t, f, x);
    EntryWithin(t, g, y);
  }

  /** The concatenation of disjoint sorted files is a sorted run. */
  lemma {:induction false} ConcatSorted(t: Tables, files: seq<FileMeta>)
    requires DisjointSorted(files) && forall f :: f in files ==> FileOk(t, f)
    ensures Sorted(Concat(t, files))
  {
    if files != [] {
      var n := |files| - 1;
      PrefixSorted(files, n);
      ConcatSorted(t, files[..n]);
      assert files[n] in files && FileOk(t, files[n]);
      assert forall i :: 0 <= i < n ==> Less(files[i].largest, files[n].smallest);
      hide DisjointSorted, Less;
      forall x, y | x in Concat(t, files[..n]) && y in Run(t, files[n])
        ensures Less(x.key, y.key)
      {
        ConcatMembers(t, files[..n], x);
        var f :| f in files[..n] && x in Run(t, f);
        assert f in files;
        EntriesApart(t, f, files[n], x, y);
      }
      hide FileOk;
      assert Sorted(Run(t, files[n])) by { RunSorted(t, files[n]); }
      SortedJoin(Concat(t, files[..n]), Run(t, files[n]));
    }
  }

  lemma RunSorted(t: Tables, f: FileMeta)
    requires FileOk(t, f)
    ensures Sorted(Run(t, f))
  {
  }

  // ------------------------------------------------------------------ groups of files

  function GroupRuns(t: Tables, groups: seq<seq<FileMeta>>): (runs: seq<seq<Entry>>)
    ensures |runs| == |groups| && forall i :: 0 <= i < |runs| ==> runs[i] == Concat(t, groups[i])
  {
    seq(|groups|, i requires 0 <= i < |groups| => Concat(t, groups[i]))
  }

  function Singles(files: seq<FileMeta>): (groups: seq<seq<FileMeta>>)
    ensures |groups| == |files| && forall i :: 0 <= i < |groups| ==> groups[i] == [files[i]]
  {
    seq(|files|, i requires 0 <= i < |files| => [files[i]])
  }

  /** The groups hold files of the version, none of them twice, sorted and disjoint within a group. */
  ghost predicate GroupsOk(v: Version, groups: seq<seq<FileMeta>>) {
    && (forall i :: 0 <= i < |groups| ==> DisjointSorted(groups[i]))
    && (forall i, f :: 0 <= i < |groups| && f in groups[i] ==> exists l :: 0 <= l < |v| && f in v[l])
    && (forall i, j, f :: 0 <= i < j < |groups| && f in groups[i] ==> f !in groups[j])
  }

  ghost predicate Holds(groups: seq<seq<FileMeta>>, f: FileMeta) {
    exists i :: 0 <= i < |groups| && f in groups[i]
  }

  lemma HoldsJoin(a: seq<seq<FileMeta>>, b: seq<seq<FileMeta>>, f: FileMeta)
    ensures Holds(a + b, f) <==> Holds(a, f) || Holds(b, f)
  {
    if i :| 0 <= i < |a| && f in a[i] {
      assert f in (a + b)[i];
    }
    if i :| 0 <= i < |b| && f in b[i] {
      assert f in (a + b)[|a| + i];
    }
  }

  /** An entry lies in one file of a sorted level. */
  lemma OnePlaceInLevel(t: Tables, files: seq<FileMeta>, f: FileMeta, g: FileMeta, e: Entry)
    requires DisjointSorted(files) && f in files && g in files && FileOk(t, f) && FileOk(t, g)
    requires e in Run(t, f) && e in Run(t, g)
    ensures f == g
  {
    EntryWithin(t, f, e);
    EntryWithin(t, g, e);
    if f != g {
      DisjointApart(files, f, g);
      assert false;
    }
  }

  /** An entry of a version lies in one file of one level. */
  lemma OnePlace(t: Tables, v: Version, l: nat, f: FileMeta, m: nat, g: FileMeta, e: Entry)
    requires VersionOk(t, v) && l < |v| && m < |v| && f in v[l] && g in v[m]
    requires e in Run(t, f) && e in Run(t, g)
    ensures l == m && f == g
  {
    hide SortedFiles, FileOk, DisjointSorted;
    assert l < m ==> Above(Run(t, f), Run(t, g));
    assert m < l ==> Above(Run(t, g), Run(t, f));
    assert l == m;
    if l == 0 {
      assert f.number > g.number ==> Above(Run(t, f), Run(t, g));
      assert g.number > f.number ==> Above(Run(t, g), Run(t, f));
      assert f.number == g.number;
    } else {
      OnePlaceInLevel(t, v[l], f, g, e);
    }
  }

  lemma GroupRunSorted(t: Tables, v: Version, groups: seq<seq<FileMeta>>, i: nat)
    requires VersionOk(t, v) && GroupsOk(v, groups) && i < |groups|
    ensures Sorted(Concat(t, groups[i]))
  {
    forall f | f in groups[i]
      ensures FileOk(t, f)
    {
      var l :| 0 <= l < |v| && f in v[l];
    }
    ConcatSorted(t, groups[i]);
  }

  /** Groups of a version's files are sorted runs without a common entry. */
  lemma GroupsRunsOk(t: Tables, v: Version, groups: seq<seq<FileMeta>>)
    requires VersionOk(t, v) && GroupsOk(v, groups)
    ensures RunsOk(GroupRuns(t, groups))
  {
    var runs := GroupRuns(t, groups);
    hide VersionOk, Sorted, Concat, DisjointSorted;
    forall i | 0 <= i < |runs|
      ensures Sorted(runs[i])
    {
      GroupRunSorted(t, v, groups, i);
    }
    forall i, j, e | 0 <= i < j < |runs| && e in runs[i]
      ensures e !in runs[j]
    {
      ConcatMembers(t, groups[i], e);
      ConcatMembers(t, groups[j], e);
      if e in runs[j] {
        var f :| f in groups[i] && e in Run(t, f);
        var g :| g in groups[j] && e in Run(t, g);
        var l :| 0 <= l < |v| && f in v[l];
        var m :| 0 <= m < |v| && g in v[m];
        OnePlace(t, v, l, f, m, g, e);
        assert false;
      }
    }
  }

  /** The entries of the groups' runs are those of the groups' files. */
  lemma GroupsEntries(t: Tables, groups: seq<seq<FileMeta>>, e: Entry)
    ensures e in RunsEntries(GroupRuns(t, groups)) <==>
            exists i, f :: 0 <= i < |groups| && f in groups[i] && e in Run(t, f)
  {
    var runs := GroupRuns(t, groups);
    if e in RunsEntries(runs) {
      var i :| 0 <= i < |runs| && e in runs[i];
      ConcatMembers(t, groups[i], e);
    }
    if i, f :| 0 <= i < |groups| && f in groups[i] && e in Run(t, f) {
      ConcatMembers(t, groups[i], e);
      assert e in runs[i];
    }
  }

  // ------------------------------------------------------------------ making a merging iterator

  /** NewMergingIterator over one cursor per run. */
  method NewMergingIterator(runs: seq<seq<Entry>>, ghost contents: seq<Entry>) returns (m: MergingIterator)
    requires Interleaves(runs, contents)
    ensures fresh(m.Repr()) && m.Ok() && m.contents == contents
  {
    hide Interleaves;
    var children: seq<Cursor> := [];
    for i := 0 to |runs|
      invariant |children| == i
      invariant forall j :: 0 <= j < i ==> fresh(children[j]) && children[j].entries == runs[j]
      invariant forall j, k :: 0 <= j < k < i ==> children[j] != children[k]
    {
      var child := new Cursor(runs[i]);
      children := children + [child];
    }
    assert seq(|children|, i requires 0 <= i < |children| => children[i].entries) == runs;
    m := new MergingIterator(children, contents);
  }

  // ------------------------------------------------------------------ the inputs of a compaction

  function InputGroups(c: Inputs): seq<seq<FileMeta>> {
    (if c.level == 0 then Singles(c.inputs0) else [c.inputs0]) + (if c.inputs1 == [] then [] else [c.inputs1])
  }

  lemma SliceSorted(files: seq<FileMeta>, r: seq<FileMeta>)
    requires DisjointSorted(files) && IsSlice(r, files)
    ensures DisjointSorted(r)
  {
    hide Less;
    var a, b :| 0 <= a <= b <= |files| && r == files[a..b];
    forall f | f in r
      ensures f in files
    {
    }
    forall i, j | 0 <= i < j < |r|
      ensures Less(r[i].largest, r[j].smallest)
    {
      assert r[i] == files[a + i] && r[j] == files[a + j];
    }
  }

  lemma SingleSorted(f: FileMeta)
    requires InOrder(f)
    ensures DisjointSorted([f])
  {
  }

  lemma NextSorted(v: Version, c: Inputs)
    requires InputsOk(v, c)
    ensures DisjointSorted(c.inputs1)
  {
    var next := v[c.level + 1];
    var s, l := InputRange(next, c.inputs0, c.inputs1);
    var a, b := OverlappingIsSlice(next, Some(s.user), Some(l.user));
    SliceSorted(next, c.inputs1);
  }

  lemma UpperSorted(t: Tables, v: Version, c: Inputs)
    requires VersionOk(t, v) && InputsOk(v, c)
    ensures c.level > 0 ==> DisjointSorted(c.inputs0)
    ensures c.level == 0 ==> NoRepeats(c.inputs0) && AllInOrder(c.inputs0)
  {
    if c.level == 0 {
      var lo, hi :| Closed(v[0], lo, hi) && c.inputs0 == Overlapping(v[0], lo, hi);
      OverlappingDistinct(v[0], lo, hi);
    } else {
      SliceSorted(v[c.level], c.inputs0);
    }
  }

  lemma InputGroupsOk(t: Tables, v: Version, c: Inputs)
    requires VersionOk(t, v) && InputsOk(v, c)
    ensures GroupsOk(v, InputGroups(c))
  {
    NextSorted(v, c);
    UpperSorted(t, v, c);
    InputsInLevels(v, c);
    InputsDisjoint(t, v, c);
    hide VersionOk, InputsOk, DisjointSorted, GroupsOk, AllInOrder, NoRepeats;
    if c.level == 0 {
      SinglesOk(v, c.inputs0);
      OneMoreGroup(v, Singles(c.inputs0), c.inputs1, 1);
    } else {
      assert [] + [c.inputs0] == [c.inputs0];
      NoGroups(v);
      OneMoreGroup(v, [], c.inputs0, c.level);
      OneMoreGroup(v, [c.inputs0], c.inputs1, c.level + 1);
    }
  }

  lemma NoGroups(v: Version)
    ensures GroupsOk(v, [])
  {
  }

  lemma SinglesOk(v: Version, files: seq<FileMeta>)
    requires AllInOrder(files) && NoRepeats(files) && 0 < |v| && forall f :: f in files ==> f in v[0]
    ensures GroupsOk(v, Singles(files))
  {
    forall i | 0 <= i < |files|
      ensures DisjointSorted([files[i]]) && files[i] in v[0]
    {
      assert files[i] in files;
      SingleSorted(files[i]);
    }
  }

  /** A group of files of one more level. */
  lemma OneMoreGroup(v: Version, groups: seq<seq<FileMeta>>, g: seq<FileMeta>, l: nat)
    requires GroupsOk(v, groups) && DisjointSorted(g) && l < |v| && forall f :: f in g ==> f in v[l]
    requires forall i, f :: 0 <= i < |groups| && f in groups[i] ==> f !in g
    ensures GroupsOk(v, groups + if g == [] then [] else [g])
  {
    hide DisjointSorted;
  }

  lemma InputsDisjoint(t: Tables, v: Version, c: Inputs)
    requires VersionOk(t, v) && InputsOk(v, c)
    ensures forall f :: f in c.inputs0 ==> f !in c.inputs1
  {
    InputsInLevels(v, c);
    hide InputsOk;
  }

  lemma InputGroupsHold(c: Inputs, f: FileMeta)
    ensures Holds(InputGroups(c), f) <==> f in c.inputs0 || f in c.inputs1
  {
    var groups := InputGroups(c);
    if f in c.inputs0 {
      var i :| 0 <= i < |c.inputs0| && c.inputs0[i] == f;
      assert f in groups[if c.level == 0 then i else 0];
    }
    if f in c.inputs1 {
      assert f in groups[|groups| - 1];
    }
  }

  lemma InputGroupsEntries(t: Tables, c: Inputs)
    ensures RunsEntries(GroupRuns(t, InputGroups(c))) == InputEntries(t, c)
  {
    var groups := InputGroups(c);
    hide GroupRuns, RunsEntries, Run, InputGroups;
    forall e
      ensures e in RunsEntries(GroupRuns(t, groups)) <==> e in InputEntries(t, c)
    {
      GroupsEntries(t, groups, e);
      if i, f :| 0 <= i < |groups| && f in groups[i] && e in Run(t, f) {
        assert Holds(groups, f);
        InputGroupsHold(c, f);
      }
      if f :| (f in c.inputs0 || f in c.inputs1) && e in Run(t, f) {
        InputGroupsHold(c, f);
      }
    }
  }

  /** VersionSet::MakeInputIterator: the merged view of all entries of the inputs. */
  method MakeInputIterator(ghost h: seq<Entry>, t: Tables, ghost v: Version, c: Inputs) returns (m: MergingIterator)
    requires VersionOk(t, v) && InputsOk(v, c) && VersionWritten(h, t, v)
    ensures fresh(m.Repr()) && m.Ok()
    ensures Compacting(h, t, v, c, m.contents)
  {
    InputGroupsOk(t, v, c);
    GroupsRunsOk(t, v, InputGroups(c));
    InputGroupsEntries(t, c);
    ghost var contents := InputContents(h, t, v, c);
    hide *;
    var runs := InputRuns(t, c);
    RunsInterleave(runs, contents);
    m := NewMergingIterator(runs, contents);
    CompactingBy(h, t, v, c, contents);
  }

  lemma CompactingBy(h: seq<Entry>, t: Tables, v: Version, c: Inputs, contents: seq<Entry>)
    requires VersionOk(t, v) && InputsOk(v, c) && VersionWritten(h, t, v)
    requires Sorted(contents) && AllOf(contents) == InputEntries(t, c)
    ensures Compacting(h, t, v, c, contents)
  {
  }

  /** One run per level-0 input, and one for the other inputs of a level. */
  method InputRuns(t: Tables, c: Inputs) returns (runs: seq<seq<Entry>>)
    ensures runs == GroupRuns(t, InputGroups(c))
  {
    hide Concat, Run;
    runs := [];
    if c.level == 0 {
      for i := 0 to |c.inputs0|
        invariant |runs| == i
        invariant forall j :: 0 <= j < i ==> runs[j] == Run(t, c.inputs0[j])
      {
        runs := runs + [Run(t, c.inputs0[i])];
      }
    } else {
      runs := [Concat(t, c.inputs0)];
    }
    if c.inputs1 != [] {
      runs := runs + [Concat(t, c.inputs1)];
    }
    SinglesRuns(t, c.inputs0);
    assert runs == GroupRuns(t, InputGroups(c));
  }

  lemma SinglesRuns(t: Tables, files: seq<FileMeta>)
    ensures forall i :: 0 <= i < |files| ==> Concat(t, [files[i]]) == Run(t, files[i])
  {
  }

  lemma InputContents(h: seq<Entry>, t: Tables, v: Version, c: Inputs) returns (contents: seq<Entry>)
    requires VersionOk(t, v) && InputsOk(v, c) && VersionWritten(h, t, v)
    ensures Sorted(contents) && AllOf(contents) == InputEntries(t, c)
  {
    hide VersionOk, InputsOk, VersionWritten, InputEntries, Sorted;
    forall e | e in InputEntries(t, c)
      ensures Written(h, e)
    {
      InputWritten(h, t, v, c, e);
    }
    WrittenDistinct(h, InputEntries(t, c));
    contents := SortSet(InputEntries(t, c));
  }

  // ------------------------------------------------------------------ a whole version

  /** Version::AddIterators, for the levels below `n`. */
  function VersionGroups(v: Version, n: nat): seq<seq<FileMeta>>
    requires 1 <= n <= |v|
  {
    if n == 1 then Singles(v[0]) else VersionGroups(v, n - 1) + if v[n - 1] == [] then [] else [v[n - 1]]
  }

  lemma {:induction false} VersionGroupsHold(v: Version, n: nat, f: FileMeta)
    requires 1 <= n <= |v|
    ensures Holds(VersionGroups(v, n), f) <==> exists l :: 0 <= l < n && f in v[l]
  {
    if n == 1 {
      if f in v[0] {
        var i :| 0 <= i < |v[0]| && v[0][i] == f;
        assert f in VersionGroups(v, n)[i];
      }
    } else {
      var last := if v[n - 1] == [] then [] else [v[n - 1]];
      VersionGroupsHold(v, n - 1, f);
      HoldsJoin(VersionGroups(v, n - 1), last, f);
      assert Holds(last, f) <==> f in v[n - 1] by {
        assert v[n - 1] != [] ==> last[0] == v[n - 1];
      }
    }
  }

  lemma {:induction false} VersionGroupsOk(t: Tables, v: Version, n: nat)
    requires VersionOk(t, v) && 1 <= n <= |v|
    ensures GroupsOk(v, VersionGroups(v, n))
  {
    if n == 1 {
      Level0NoRepeats(v[0]);
      hide GroupsOk, Singles;
      SinglesOk(v, v[0]);
    } else {
      var rest := VersionGroups(v, n - 1);
      VersionGroupsOk(t, v, n - 1);
      hide GroupsOk;
      forall i, f | 0 <= i < |rest| && f in rest[i]
        ensures f !in v[n - 1]
      {
        assert Holds(rest, f);
        VersionGroupsHold(v, n - 1, f);
        var l :| 0 <= l < n - 1 && f in v[l];
        NotInTwoLevels(v, l, n - 1, f);
      }
      OneMoreGroup(v, rest, v[n - 1], n - 1);
    }
  }

  lemma NotInTwoLevels(v: Version, l: nat, m: nat, f: FileMeta)
    requires UniqueNumbers(v) && l < m < |v| && f in v[l]
    ensures f !in v[m]
  {
    assert f in v[m] ==> l == m;
  }

  lemma Level0NoRepeats(files: seq<FileMeta>)
    requires SortedFiles(files)
    ensures NoRepeats(files)
  {
    forall i, j | 0 <= i < j < |files|
      ensures files[i] != files[j]
    {
      assert BySmallest(files[i], files[j]);
    }
  }

  lemma VersionRunsEntries(t: Tables, v: Version)
    requires |v| == NUM_LEVELS
    ensures RunsEntries(GroupRuns(t, VersionGroups(v, NUM_LEVELS))) == LevelsEntries(t, v)
  {
    var groups := VersionGroups(v, NUM_LEVELS);
    hide GroupRuns, RunsEntries, Run, VersionGroups;
    forall e
      ensures e in RunsEntries(GroupRuns(t, groups)) <==> e in LevelsEntries(t, v)
    {
      GroupsEntries(t, groups, e);
      if i, f :| 0 <= i < |groups| && f in groups[i] && e in Run(t, f) {
        assert Holds(groups, f);
        VersionGroupsHold(v, NUM_LEVELS, f);
      }
      if l, f :| 0 <= l < |v| && f in v[l] && e in Run(t, f) {
        VersionGroupsHold(v, NUM_LEVELS, f);
      }
    }
  }

  /** Version::AddIterators: one run per level-0 file, and one per deeper level that has files. */
  method AddIterators(t: Tables, v: Version) returns (runs: seq<seq<Entry>>)
    requires |v| == NUM_LEVELS
    ensures runs == GroupRuns(t, VersionGroups(v, NUM_LEVELS))
  {
    hide Concat, Run;
    runs := [];
    for i := 0 to |v[0]|
      invariant |runs| == i
      invariant forall j :: 0 <= j < i ==> runs[j] == Run(t, v[0][j])
    {
      runs := runs + [Run(t, v[0][i])];
    }
    SinglesRuns(t, v[0]);
    for level := 1 to NUM_LEVELS
      invariant runs == GroupRuns(t, VersionGroups(v, level))
    {
      if v[level] != [] {
        runs := runs + [Concat(t, v[level])];
      }
    }
  }

  /** A run in front that shares no entry with the others. */
  lemma RunInFront(r: seq<Entry>, runs: seq<seq<Entry>>)
    requires Sorted(r) && RunsOk(runs) && AllOf(r) !! RunsEntries(runs)
    ensures RunsOk([r] + runs) && RunsEntries([r] + runs) == AllOf(r) + RunsEntries(runs)
  {
    hide Sorted, RunsEntries;
    var all := [r] + runs;
    FrontEntries(r, runs);
    assert all[0] == r && forall i :: 0 <= i < |runs| ==> all[i + 1] == runs[i];
    forall i, j, e | 0 <= i < j < |all| && e in all[i]
      ensures e !in all[j]
    {
      InRuns(runs, j - 1, e);
      assert i == 0 ==> e in AllOf(r);
    }
  }

  lemma InRuns(runs: seq<seq<Entry>>, i: nat, e: Entry)
    requires i < |runs|
    ensures e in runs[i] ==> e in RunsEntries(runs)
  {
  }

  lemma FrontEntries(r: seq<Entry>, runs: seq<seq<Entry>>)
    ensures RunsEntries([r] + runs) == AllOf(r) + RunsEntries(runs)
  {
    var all := [r] + runs;
    forall e | e in RunsEntries(all)
      ensures e in AllOf(r) + RunsEntries(runs)
    {
      var i :| 0 <= i < |all| && e in all[i];
      assert i > 0 ==> e in runs[i - 1];
    }
    forall e | e in RunsEntries(runs)
      ensures e in RunsEntries(all)
    {
      var i :| 0 <= i < |runs| && e in runs[i];
      assert e in all[i + 1];
    }
    forall e | e in r
      ensures e in RunsEntries(all)
    {
      assert e in all[0];
    }
  }
}
