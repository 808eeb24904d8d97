/** Without snapshots the drop rules are always safe: a compaction that starts while no
    snapshot is held leaves one entry per user key, so no user key is ever cut in two. */
module Alone {
  import opened Keys
  import opened History
  import opened Files
  import opened Compactions
  import opened CompactionWork
  import opened Lsm
  import opened Builders
  import opened Install
  import opened Reads
  import opened Boundary
  import opened Stores
  import opened Steps
  import opened Core

  // ------------------------------------------------------------------ user keys of a level

  /** The user keys of one file all come before those of the other. */
  predicate UsersBeside(f: FileMeta, g: FileMeta) {
    f.largest.user < g.smallest.user || g.largest.user < f.smallest.user
  }

  /** Above level 0 no two files of a level share a user key, nor does one enclose the other. */
  ghost predicate UsersApart(v: Version) {
    forall l, f, g :: 0 < l < |v| && f in v[l] && g in v[l] && f != g ==> UsersBeside(f, g)
  }

  /** Then nothing is missing from the lower inputs of a compaction. */
  lemma ApartIsClosed(v: Version, c: Inputs)
    requires InputsOk(v, c) && UsersApart(v)
    ensures LowerClosed(v, c)
  {
    hide InputsOk, IsLargest, UsersApart, IsBoundary;
    InputsInLevels(v, c);
    LowerInOrder(v, c);
    forall k, f | IsLargest(c.inputs1, k) && f in v[c.level + 1]
      ensures !IsBoundary(f, k)
    {
      NoBoundaryFile(v, c.level + 1, c.inputs1, k, f);
    }
  }

  lemma LowerInOrder(v: Version, c: Inputs)
    requires InputsOk(v, c)
    ensures AllInOrder(v[c.level + 1])
  {
  }

  lemma NoBoundaryFile(v: Version, level: nat, inputs1: seq<FileMeta>, k: InternalKey, f: FileMeta)
    requires UsersApart(v) && 0 < level < |v| && f in v[level] && AllInOrder(v[level])
    requires IsLargest(inputs1, k) && forall g :: g in inputs1 ==> g in v[level]
    ensures !IsBoundary(f, k)
  {
    var g :| g in inputs1 && g.largest == k;
    assert f != g ==> UsersBeside(f, g);
  }

  // ------------------------------------------------------------------ flush

  lemma FlushApart(v: Version, v': Version, level: nat, f: FileMeta)
    requires Edited(v, v', FileEdit({}, [(level, f)])) && level < NUM_LEVELS && ClearDownTo(v, level, f) && UsersApart(v)
    ensures UsersApart(v')
  {
    hide SortedFiles;
    forall l, a, b | 0 < l < |v'| && a in v'[l] && b in v'[l] && a != b
      ensures UsersBeside(a, b)
    {
      FlushedOrNot(v, v', level, f, l, a);
      FlushedOrNot(v, v', level, f, l, b);
      assert l == level && a in v[l] ==> !Overlaps(a, Some(f.smallest.user), Some(f.largest.user));
      assert l == level && b in v[l] ==> !Overlaps(b, Some(f.smallest.user), Some(f.largest.user));
    }
  }

  lemma FlushedOrNot(v: Version, v': Version, level: nat, f: FileMeta, l: nat, a: FileMeta)
    requires level < NUM_LEVELS && l < NUM_LEVELS && Edited(v, v', FileEdit({}, [(level, f)])) && a in v'[l]
    ensures a in v[l] || (l == level && a == f)
  {
    hide SortedFiles;
    assert (l, a) in [(level, f)] ==> l == level && a == f;
  }

  // ------------------------------------------------------------------ sinking files

  /** A file left in the lower level has its user keys before all input entries or after them. */
  lemma BesideUsers(t: Tables, v: Version, c: Inputs, g: FileMeta, e: Entry, d: Entry)
    requires InputsOk(v, c) && UsersApart(v) && (forall l, f :: 0 <= l < |v| && f in v[l] ==> FileOk(t, f))
    requires g in v[c.level + 1] && g !in c.inputs1 && e in InputEntries(t, c) && d in InputEntries(t, c)
    ensures (g.largest.user < e.key.user && g.largest.user < d.key.user) ||
            (e.key.user < g.smallest.user && d.key.user < g.smallest.user)
  {
    hide InputsOk, FileOk, UsersApart, InputEntries;
    var s, l := LeftBeside(v, c, g);
    BesideUser(t, v, c, g, s, l, e);
    BesideUser(t, v, c, g, s, l, d);
  }

  lemma LeftBeside(v: Version, c: Inputs, g: FileMeta) returns (s: InternalKey, l: InternalKey)
    requires InputsOk(v, c) && g in v[c.level + 1] && g !in c.inputs1
    ensures IsSmallest(c.inputs0, s) && IsLargest(c.inputs0, l)
    ensures c.inputs1 == Overlapping(v[c.level + 1], Some(s.user), Some(l.user))
    ensures g.largest.user < s.user || l.user < g.smallest.user
  {
    hide IsSmallest, IsLargest, MaySink, Selected, LevelsOk, Overlapping;
    InputsInLevels(v, c);
    s, l := InputRange(v[c.level + 1], c.inputs0, c.inputs1);
    OverlappingIff(v[c.level + 1], Some(s.user), Some(l.user), g);
  }

  lemma BesideUser(t: Tables, v: Version, c: Inputs, g: FileMeta, s: InternalKey, l: InternalKey, e: Entry)
    requires InputsOk(v, c) && UsersApart(v) && (forall l, f :: 0 <= l < |v| && f in v[l] ==> FileOk(t, f))
    requires IsSmallest(c.inputs0, s) && IsLargest(c.inputs0, l)
    requires c.inputs1 == Overlapping(v[c.level + 1], Some(s.user), Some(l.user))
    requires g in v[c.level + 1] && g !in c.inputs1 && e in InputEntries(t, c)
    ensures g.largest.user < s.user ==> g.largest.user < e.key.user
    ensures l.user < g.smallest.user ==> e.key.user < g.smallest.user
  {
    hide InputsOk, FileOk, IsSmallest, IsLargest, UsersApart, Overlapping, Run, InputEntries;
    InputsInLevels(v, c);
    var f := InputFile(t, v, c, e);
    if f in c.inputs1 {
      OverlappingIff(v[c.level + 1], Some(s.user), Some(l.user), f);
      LowerUser(t, v, c.level + 1, g, f, s.user, l.user, e);
    } else {
      UpperUser(t, c.inputs0, f, s, l, e);
    }
  }

  lemma UpperUser(t: Tables, inputs0: seq<FileMeta>, f: FileMeta, s: InternalKey, l: InternalKey, e: Entry)
    requires f in inputs0 && FileOk(t, f) && e in Run(t, f) && IsSmallest(inputs0, s) && IsLargest(inputs0, l)
    ensures s.user <= e.key.user <= l.user
  {
    EntryWithin(t, f, e);
  }

  lemma LowerUser(t: Tables, v: Version, level: nat, g: FileMeta, f: FileMeta, lo: UserKey, hi: UserKey, e: Entry)
    requires UsersApart(v) && 0 < level < |v| && g in v[level] && f in v[level] && f != g
    requires FileOk(t, f) && FileOk(t, g) && e in Run(t, f) && Overlaps(f, Some(lo), Some(hi))
    ensures g.largest.user < lo ==> g.largest.user < e.key.user
    ensures hi < g.smallest.user ==> e.key.user < g.smallest.user
  {
    EntryWithin(t, f, e);
    EntryWithin(t, g, Run(t, g)[0]);
    assert UsersBeside(f, g);
  }

  lemma OutputUsers(t: Tables, v: Version, t': Tables, c: Inputs, outs: seq<FileMeta>, o: FileMeta, g: FileMeta)
    requires InputsOk(v, c) && UsersApart(v) && (forall l, f :: 0 <= l < |v| && f in v[l] ==> FileOk(t, f))
    requires OutputsOk(t, v, t', c, outs) && o in outs && g in v[c.level + 1] && g !in c.inputs1
    ensures UsersBeside(o, g)
  {
    var first, last := OutputEnds(t, v, t', c, outs, o);
    BesideUsers(t, v, c, g, first, last);
  }

  lemma OutputEnds(t: Tables, v: Version, t': Tables, c: Inputs, outs: seq<FileMeta>, o: FileMeta) returns (first: Entry, last: Entry)
    requires OutputsOk(t, v, t', c, outs) && o in outs
    ensures first in InputEntries(t, c) && last in InputEntries(t, c)
    ensures o.smallest == first.key && o.largest == last.key
  {
    var r := Run(t', o);
    first, last := r[0], r[|r| - 1];
    assert first in r && last in r;
  }

  /** Sinking files whose outputs share no user key keeps the levels apart. */
  lemma SinkApartUsers(t: Tables, v: Version, t': Tables, v': Version, c: Inputs, outs: seq<FileMeta>)
    requires InputsOk(v, c) && UsersApart(v) && (forall l, f :: 0 <= l < |v| && f in v[l] ==> FileOk(t, f))
    requires OutputsOk(t, v, t', c, outs) && Sunk(v, v', c, outs)
    requires forall o, p :: o in outs && p in outs && o != p ==> UsersBeside(o, p)
    ensures UsersApart(v')
  {
    hide SortedFiles, FileOk, InputsOk, OutputsOk, UsersApart;
    forall l, a, b | 0 < l < |v'| && a in v'[l] && b in v'[l] && a != b
      ensures UsersBeside(a, b)
    {
      var outA, outB := !Stays(v, c, l, a), !Stays(v, c, l, b);
      if !outA && !outB {
        BothStay(v, l, a, b);
      } else if outA && !outB {
        OutputUsers(t, v, t', c, outs, a, b);
      } else if outB && !outA {
        OutputUsers(t, v, t', c, outs, b, a);
      }
    }
    ApartBy(v');
  }

  lemma BothStay(v: Version, l: nat, a: FileMeta, b: FileMeta)
    requires UsersApart(v) && 0 < l < |v| && a in v[l] && b in v[l] && a != b
    ensures UsersBeside(a, b)
  {
  }

  lemma ApartBy(v: Version)
    requires forall l, f, g :: 0 < l < |v| && f in v[l] && g in v[l] && f != g ==> UsersBeside(f, g)
    ensures UsersApart(v)
  {
  }

  /** A trivial move. */
  lemma MoveApart(h: seq<Entry>, st: Store, next: nat, c: Inputs, v': Version)
    requires InOrderStore(h, st, next) && InputsOk(st.version, c) && |c.inputs0| == 1 && c.inputs1 == []
    requires UsersApart(st.version) && Edited(st.version, v', MoveEdit(c))
    ensures UsersApart(v')
  {
    hide *;
    StoreParts(h, st, next);
    VersionFiles(st.tables, st.version);
    MoveOutputsOk(st.tables, st.version, c);
    MoveNumbers(c);
    EditSinks(st.version, c, v', MoveEdit(c), c.inputs0);
    SinkApartUsers(st.tables, st.version, st.tables, v', c, c.inputs0);
  }

  lemma VersionFiles(t: Tables, v: Version)
    requires VersionOk(t, v)
    ensures forall l, f :: 0 <= l < |v| && f in v[l] ==> FileOk(t, f)
  {
    hide FileOk, LevelsOk, Ordered, SortedFiles, UniqueNumbers;
  }

  // ------------------------------------------------------------------ compaction

  /** Each user key once, in order. */
  ghost predicate OneEach(r: seq<Entry>) {
    forall i, j :: 0 <= i < j < |r| ==> r[i].key.user < r[j].key.user
  }

  /** When no reader is older than any entry, one entry per user key is kept. */
  lemma {:induction false} KeptOneEach(c: seq<Entry>, s: SequenceNumber, v: Version, level: nat, n: nat)
    requires Sorted(c) && n <= |c| && |v| == NUM_LEVELS && forall e :: e in c ==> e.key.sequence <= s
    ensures OneEach(Kept(c, s, v, level, n))
    ensures forall e :: e in Kept(c, s, v, level, n) ==> n > 0 && e.key.user <= c[n - 1].key.user
  {
    if n > 0 {
      hide Obsolete, Sorted;
      KeptOneEach(c, s, v, level, n - 1);
      if n > 1 {
        UserOrder(c, n - 1);
      }
      var front := Kept(c, s, v, level, n - 1);
      if !Dropped(c, s, v, level, n - 1) {
        assert n > 1 ==> c[n - 2] in c;
        assert forall e :: e in front ==> e.key.user < c[n - 1].key.user;
      }
    }
  }

  lemma OneEachParts(front: seq<Entry>, last: seq<Entry>)
    requires OneEach(front + last)
    ensures OneEach(front) && OneEach(last)
    ensures forall x, y :: x in front && y in last ==> x.key.user < y.key.user
  {
    var all := front + last;
    assert forall i :: 0 <= i < |front| ==> front[i] == all[i];
    assert forall j :: 0 <= j < |last| ==> last[j] == all[|front| + j];
  }

  /** Cut anywhere, such a run gives outputs that share no user key. */
  lemma {:induction false} ChunksOneEach(outputs: seq<seq<Entry>>)
    requires OneEach(Flatten(outputs))
    ensures forall i, j, x, y :: 0 <= i < j < |outputs| && x in outputs[i] && y in outputs[j] ==> x.key.user < y.key.user
    ensures forall i, x :: 0 <= i < |outputs| && x in outputs[i] ==> x in Flatten(outputs)
  {
    hide OneEach, Flatten;
    if outputs != [] {
      var n := |outputs| - 1;
      FlattenLast(outputs);
      OneEachParts(Flatten(outputs[..n]), outputs[n]);
      ChunksOneEach(outputs[..n]);
      assert forall i :: 0 <= i < n ==> outputs[i] == outputs[..n][i];
    }
  }

  lemma OutputsBeside(outputs: seq<seq<Entry>>, next: nat, t': Tables, outs: seq<FileMeta>)
    requires OneEach(Flatten(outputs)) && WrittenOut(outputs, next, t', outs)
    ensures forall o, p :: o in outs && p in outs && o != p ==> UsersBeside(o, p)
  {
    hide OneEach, Flatten;
    ChunksOneEach(outputs);
    forall i, j | 0 <= i < j < |outs|
      ensures outs[i].largest.user < outs[j].smallest.user
    {
      var a, b := outputs[i], outputs[j];
      assert a[|a| - 1] in a && b[0] in b;
    }
  }

  /** Installing such outputs. */
  lemma InstallApart(h: seq<Entry>, st: Store, next: nat, r: Running, contents: seq<Entry>, oldest: nat,
                     t': Tables, outs: seq<FileMeta>, v': Version)
    requires InOrderStore(h, st, next) && RunningOk(h, st, r, contents, oldest)
    requires UsersApart(st.version) && OneEach(Flatten(r.outputs)) && WrittenOut(r.outputs, next, t', outs)
    requires forall n :: n < next ==> (n in st.tables <==> n in t') && (n in st.tables ==> st.tables[n] == t'[n])
    requires forall n :: n in t' ==> n < next + |r.outputs|
    requires Edited(st.version, v', CompactionEdit(r.inputs, outs))
    ensures UsersApart(v')
  {
    hide *;
    RunningIs(h, st, r, contents, oldest);
    StoreParts(h, st, next);
    VersionFiles(st.tables, st.version);
    CompactingParts(h, st.tables, st.version, r.inputs, contents);
    CompactionSinks(h, st, next, r.inputs, contents, r.smallestSnapshot, r.outputs, t', outs, v');
    OutputsBeside(r.outputs, next, t', outs);
    SinkApartUsers(st.tables, st.version, t', v', r.inputs, outs);
  }

  lemma RunningIs(h: seq<Entry>, st: Store, r: Running, contents: seq<Entry>, oldest: nat)
    requires RunningOk(h, st, r, contents, oldest)
    ensures Compacting(h, st.tables, st.version, r.inputs, contents) && |st.version| == NUM_LEVELS
    ensures Flatten(r.outputs) == Kept(contents, r.smallestSnapshot, st.version, r.inputs.level, |contents|)
  {
  }

  /** A compaction started when no reader is older than the last write. */
  lemma StartOneEach(h: seq<Entry>, st: Store, r: Running, contents: seq<Entry>, oldest: nat)
    requires RunningOk(h, st, r, contents, oldest) && r.smallestSnapshot == |h|
    ensures OneEach(Flatten(r.outputs))
  {
    hide *;
    RunningIs(h, st, r, contents, oldest);
    CompactingPast(h, st.tables, st.version, r.inputs, contents);
    CompactingSorted(h, st.tables, st.version, r.inputs, contents);
    KeptOneEach(contents, r.smallestSnapshot, st.version, r.inputs.level, |contents|);
  }

  lemma CompactingPast(h: seq<Entry>, t: Tables, v: Version, c: Inputs, contents: seq<Entry>)
    requires Compacting(h, t, v, c, contents)
    ensures forall e :: e in contents ==> e.key.sequence <= |h|
  {
    hide InputsOk, VersionOk, VersionWritten, Sorted, InputEntries;
    forall e | e in contents
      ensures e.key.sequence <= |h|
    {
      assert e in AllOf(contents);
      InputWritten(h, t, v, c, e);
    }
  }

  // ------------------------------------------------------------------ the invariant

  /** What holds as long as every compaction started without a snapshot. */
  ghost predicate AloneOk(v: Version, running: Option<Running>) {
    UsersApart(v) && (running.Some? ==> OneEach(Flatten(running.value.outputs)))
  }

  lemma AloneEmpty()
    ensures AloneOk(seq(NUM_LEVELS, _ => []), None)
  {
    var v: Version := seq(NUM_LEVELS, _ => []);
    assert forall l, f :: 0 <= l < |v| ==> f !in v[l];
  }

  lemma FlushAlone(v: Version, v': Version, level: nat, f: FileMeta)
    requires Edited(v, v', FileEdit({}, [(level, f)])) && level < NUM_LEVELS && ClearDownTo(v, level, f)
    ensures AloneOk(v, None) ==> AloneOk(v', None)
  {
    hide Edited, ClearDownTo, UsersApart;
    if AloneOk(v, None) {
      FlushApart(v, v', level, f);
    }
  }

  lemma MoveAlone(h: seq<Entry>, st: Store, next: nat, c: Inputs, v': Version)
    requires InOrderStore(h, st, next) && InputsOk(st.version, c) && |c.inputs0| == 1 && c.inputs1 == []
    requires Edited(st.version, v', MoveEdit(c))
    ensures AloneOk(st.version, None) ==> AloneOk(v', None)
  {
    hide InOrderStore, InputsOk, Edited, UsersApart;
    if AloneOk(st.version, None) {
      MoveApart(h, st, next, c, v');
    }
  }

  lemma StartAlone(h: seq<Entry>, st: Store, r: Running, contents: seq<Entry>, oldest: nat)
    requires RunningOk(h, st, r, contents, oldest) && r.smallestSnapshot == |h|
    ensures AloneOk(st.version, None) ==> AloneOk(st.version, Some(r))
  {
    hide RunningOk, UsersApart, OneEach, Flatten;
    StartOneEach(h, st, r, contents, oldest);
  }

  /** The compaction is safe, and the levels stay apart. */
  lemma InstallAlone(h: seq<Entry>, st: Store, next: nat, r: Running, contents: seq<Entry>, oldest: nat, safe: bool,
                     t': Tables, outs: seq<FileMeta>, v': Version)
    requires CoreOk(h, st, next, Some(r), contents, oldest, safe) && InputsOk(st.version, r.inputs)
    requires WrittenOut(r.outputs, next, t', outs)
    requires forall n :: n < next ==> (n in st.tables <==> n in t') && (n in st.tables ==> st.tables[n] == t'[n])
    requires forall n :: n in t' ==> n < next + |r.outputs|
    requires Edited(st.version, v', CompactionEdit(r.inputs, outs))
    ensures AloneOk(st.version, Some(r)) ==> AloneOk(v', None) && SafeCompaction(st, r.inputs, r.smallestSnapshot)
  {
    hide InOrderStore, InputsOk, Edited, UsersApart, OneEach, Flatten, RunningOk, WrittenOut, SafeCompaction, LowerClosed;
    if AloneOk(st.version, Some(r)) {
      InstallApart(h, st, next, r, contents, oldest, t', outs, v');
      ApartIsClosed(st.version, r.inputs);
      ClosedCompactionIsSafe(h, st, next, r.inputs, r.smallestSnapshot);
    }
  }

  /** The entries after the running compaction is installed. */
  ghost function AfterInstall(st: Store, r: Running, contents: seq<Entry>): set<Entry> {
    if |st.version| != NUM_LEVELS then {} else
    Elsewhere(st, r.inputs) + AllOf(Kept(contents, r.smallestSnapshot, st.version, r.inputs.level, |contents|))
  }

  /** Writes the outputs of the running compaction and replaces its inputs by them. */
  method WriteAndInstall(ghost h: seq<Entry>, st: Store, next: nat, r: Running, ghost contents: seq<Entry>, ghost oldest: nat,
                         ghost safe: bool, fileSize: seq<Entry> -> nat)
    returns (t': Tables, outs: seq<FileMeta>, v': Version)
    requires CoreOk(h, st, next, Some(r), contents, oldest, safe)
    ensures InputsOk(st.version, r.inputs)
    ensures CoreOk(h, st.(tables := t', version := v'), next + |r.outputs|, None, contents, oldest,
                   safe && SafeCompaction(st, r.inputs, r.smallestSnapshot))
    ensures SafeCompaction(st, r.inputs, r.smallestSnapshot) <==>
            SameReads(st.Entries(), st.(tables := t', version := v').Entries(), r.smallestSnapshot)
    ensures AloneOk(st.version, Some(r)) ==> AloneOk(v', None) && SafeCompaction(st, r.inputs, r.smallestSnapshot)
    ensures Installed(st.tables, st.version, next, r, fileSize, t', v')
    ensures InstalledAs(st.version, next, r, fileSize, t', v', outs)
    ensures st.(tables := t', version := v').Entries() == AfterInstall(st, r, contents)
  {
    hide *;
    t', outs, v' := WriteAndEdit(h, st, next, r, contents, oldest, safe, fileSize);
    CoreInstall(h, st, next, r, contents, oldest, safe, t', outs, v');
    InstallAlone(h, st, next, r, contents, oldest, safe, t', outs, v');
    AfterInstallIs(st, r, contents);
  }

  lemma FlushOutputIs(st: Store, next: nat, f: FileMeta)
    requires FlushOutput(st, next, f)
    ensures f == OutputMeta(st.Imm(), next, f.size)
  {
  }

  /** Writes the immutable memtable into a table file, which joins the version. */
  method WriteAndFlush(options: Options, ghost h: seq<Entry>, st: Store, next: nat, ghost contents: seq<Entry>, ghost oldest: nat,
                       ghost safe: bool, fileSize: seq<Entry> -> nat)
    returns (f: FileMeta, level: nat, v': Version)
    requires CoreOk(h, st, next, None, contents, oldest, safe) && st.Imm() != []
    ensures f == OutputMeta(st.Imm(), next, fileSize(st.Imm())) && Flushed(options, st.version, f, v')
    ensures var st' := Store(st.mem, None, st.tables[next := st.Imm()], v');
            CoreOk(h, st', next + 1, None, contents, oldest, safe) && st'.Entries() == st.Entries()
    ensures AloneOk(st.version, None) ==> AloneOk(v', None)
  {
    hide *;
    CoreParts(h, st, next, None, contents, oldest, safe);
    var size := fileSize(st.Imm());
    f, level, v' := WriteLevel0Table(options, h, st, next, size);
    MaxMemLevel();
    FlushOutputIs(st, next, f);
    CoreFlush(h, st, next, contents, oldest, safe, f, level, v');
    FlushAlone(st.version, v', level, f);
    FlushKeeps(h, st, next, f, level, v');
  }

  lemma MaxMemLevel()
    ensures MAX_MEM_COMPACT_LEVEL < NUM_LEVELS
  {
  }

  lemma AfterInstallIs(st: Store, r: Running, contents: seq<Entry>)
    ensures |st.version| == NUM_LEVELS ==>
              AfterInstall(st, r, contents) ==
              Elsewhere(st, r.inputs) + AllOf(Kept(contents, r.smallestSnapshot, st.version, r.inputs.level, |contents|))
  {
  }
}
