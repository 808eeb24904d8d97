/** The invariant of the whole database, and that every step keeps it. */
module Core {
  import opened Keys
  import opened History
  import opened Files
  import opened Compactions
  import opened CompactionWork
  import opened Lsm
  import opened Builders
  import opened Install
  import opened Reads
  import opened Children
  import opened Stores
  import opened Steps

  /** A compaction that has merged its inputs but is not installed. */
  datatype Running = Running(inputs: Inputs, smallestSnapshot: SequenceNumber, outputs: seq<seq<Entry>>)

  /** `contents` are the merged inputs of the running compaction, and no reader is older
      than the snapshot it was started for. */
  ghost predicate RunningOk(h: seq<Entry>, st: Store, r: Running, contents: seq<Entry>, oldest: nat) {
    && Compacting(h, st.tables, st.version, r.inputs, contents)
    && (forall o :: o in r.outputs ==> o != [])
    && Flatten(r.outputs) == Kept(contents, r.smallestSnapshot, st.version, r.inputs.level, |contents|)
    && r.smallestSnapshot <= oldest
  }

  /** The store is in order, and if every compaction was safe, every reader at or above
      `oldest` sees the map left by the writes up to its number. */
  ghost predicate CoreOk(h: seq<Entry>, st: Store, next: nat, running: Option<Running>, contents: seq<Entry>,
                         oldest: nat, safe: bool)
  {
    && InOrderStore(h, st, next)
    && (running.Some? ==> RunningOk(h, st, running.value, contents, oldest))
    && (safe ==> ReadsHistory(h, st.Entries(), oldest))
  }

  lemma CoreEmpty()
    ensures CoreOk([], Store([], None, map[], seq(NUM_LEVELS, _ => [])), 1, None, [], 0, true)
  {
    var v: Version := seq(NUM_LEVELS, _ => []);
    assert forall l, f :: 0 <= l < |v| ==> f !in v[l];
    var st := Store([], None, map[], v);
    assert st.Entries() == {};
    forall k, r
      ensures Read({}, k, r) == ReadAt([], k, r)
    {
      assert Newest({}, k, r, None);
      ReadIs({}, k, r, None);
    }
  }

  /** Readers that come later are no older. */
  lemma CoreLater(h: seq<Entry>, st: Store, next: nat, running: Option<Running>, contents: seq<Entry>,
                  oldest: nat, later: nat, safe: bool)
    requires CoreOk(h, st, next, running, contents, oldest, safe) && oldest <= later
    ensures CoreOk(h, st, next, running, contents, later, safe)
  {
    hide InOrderStore, Compacting, Kept, Flatten, Read, ReadAt;
  }

  lemma CompactingStays(h: seq<Entry>, t: Tables, v: Version, c: Inputs, contents: seq<Entry>, e: Entry)
    requires Compacting(h, t, v, c, contents)
    ensures Compacting(h + [e], t, v, c, contents)
  {
    VersionStaysWritten(h, t, v, e);
    hide VersionOk, InputsOk, VersionWritten, Sorted, InputEntries;
  }

  lemma CoreWrite(h: seq<Entry>, st: Store, next: nat, running: Option<Running>, contents: seq<Entry>,
                  oldest: nat, safe: bool, e: Entry)
    requires CoreOk(h, st, next, running, contents, oldest, safe) && e.key.sequence == |h| + 1
    ensures CoreOk(h + [e], st.(mem := InsertEntry(st.mem, e)), next, running, contents, oldest, safe)
  {
    hide InOrderStore, Compacting, Kept, Flatten, ReadsHistory, InsertEntry, Store.Entries;
    WriteKeeps(h, st, next, e);
    EntriesWritten(h, st, next);
    if safe {
      WriteReads(h, st.Entries(), oldest, e);
    }
    if running.Some? {
      CompactingStays(h, st.tables, st.version, running.value.inputs, contents, e);
    }
  }

  lemma CoreSwitch(h: seq<Entry>, st: Store, next: nat, running: Option<Running>, contents: seq<Entry>,
                   oldest: nat, safe: bool)
    requires CoreOk(h, st, next, running, contents, oldest, safe) && st.imm.None?
    ensures CoreOk(h, st.(mem := [], imm := Some(st.mem)), next + 1, running, contents, oldest, safe)
  {
    var st' := st.(mem := [], imm := Some(st.mem));
    SwitchKeeps(h, st, next);
    NumbersGrow(h, st', next, next + 1);
    hide InOrderStore, Compacting, Kept, Flatten, ReadsHistory, Store.Entries;
  }

  lemma CoreFlush(h: seq<Entry>, st: Store, next: nat, contents: seq<Entry>, oldest: nat, safe: bool,
                  f: FileMeta, level: nat, v': Version)
    requires CoreOk(h, st, next, None, contents, oldest, safe)
    requires FlushOutput(st, next, f) && level < NUM_LEVELS
    requires ClearDownTo(st.version, level, f) && Edited(st.version, v', FileEdit({}, [(level, f)]))
    ensures CoreOk(h, Store(st.mem, None, st.tables[next := st.Imm()], v'), next + 1, None, contents, oldest, safe)
  {
    hide InOrderStore, ReadsHistory, Store.Entries, Edited, ClearDownTo, FlushOutput;
    FlushKeeps(h, st, next, f, level, v');
  }

  lemma CoreEmptyFlush(h: seq<Entry>, st: Store, next: nat, contents: seq<Entry>, oldest: nat, safe: bool)
    requires CoreOk(h, st, next, None, contents, oldest, safe) && st.Imm() == []
    ensures CoreOk(h, st.(imm := None), next + 1, None, contents, oldest, safe)
  {
    hide InOrderStore, ReadsHistory, Store.Entries;
    EmptyFlushKeeps(h, st, next);
    NumbersGrow(h, st.(imm := None), next, next + 1);
  }

  lemma CoreMove(h: seq<Entry>, st: Store, next: nat, contents: seq<Entry>, oldest: nat, safe: bool, c: Inputs, v': Version)
    requires CoreOk(h, st, next, None, contents, oldest, safe) && InputsOk(st.version, c)
    requires |c.inputs0| == 1 && c.inputs1 == [] && Edited(st.version, v', MoveEdit(c))
    ensures CoreOk(h, st.(version := v'), next, None, contents, oldest, safe)
  {
    hide InOrderStore, ReadsHistory, Store.Entries, Edited, InputsOk;
    MoveKeeps(h, st, next, c, v');
  }

  /** Installing a safe compaction changes no read; an unsafe one does. */
  lemma CoreInstall(h: seq<Entry>, st: Store, next: nat, r: Running, contents: seq<Entry>, oldest: nat, safe: bool,
                    t': Tables, outs: seq<FileMeta>, v': Version)
    requires CoreOk(h, st, next, Some(r), contents, oldest, safe)
    requires WrittenOut(r.outputs, next, t', outs)
    requires forall n :: n < next ==> (n in st.tables <==> n in t') && (n in st.tables ==> st.tables[n] == t'[n])
    requires forall n :: n in t' ==> n < next + |r.outputs|
    requires Edited(st.version, v', CompactionEdit(r.inputs, outs))
    ensures InputsOk(st.version, r.inputs)
    ensures var st' := st.(tables := t', version := v');
            && CoreOk(h, st', next + |r.outputs|, None, contents, oldest,
                      safe && SafeCompaction(st, r.inputs, r.smallestSnapshot))
            && (SafeCompaction(st, r.inputs, r.smallestSnapshot) <==>
                SameReads(st.Entries(), st'.Entries(), r.smallestSnapshot))
            && |st.version| == NUM_LEVELS
            && st'.Entries() == Elsewhere(st, r.inputs) +
                                AllOf(Kept(contents, r.smallestSnapshot, st.version, r.inputs.level, |contents|))
  {
    hide InOrderStore, ReadsHistory, Store.Entries, Edited, InputsOk, WrittenOut, Kept, Flatten, Compacting, SafeCompaction;
    hide SameReads;
    CompactingParts(h, st.tables, st.version, r.inputs, contents);
    CompactionKeeps(h, st, next, r.inputs, contents, r.smallestSnapshot, r.outputs, t', outs, v');
    var es, es' := st.Entries(), st.(tables := t', version := v').Entries();
    if safe && SafeCompaction(st, r.inputs, r.smallestSnapshot) {
      SameReadsHistory(h, es, es', r.smallestSnapshot, oldest);
    }
  }

  lemma SameReadsHistory(h: seq<Entry>, a: set<Entry>, b: set<Entry>, s: SequenceNumber, oldest: nat)
    requires ReadsHistory(h, a, oldest) && SameReads(a, b, s) && s <= oldest
    ensures ReadsHistory(h, b, oldest)
  {
    hide Read, ReadAt;
  }

  // ------------------------------------------------------------------ computing a step

  lemma CoreParts(h: seq<Entry>, st: Store, next: nat, running: Option<Running>, contents: seq<Entry>, oldest: nat, safe: bool)
    requires CoreOk(h, st, next, running, contents, oldest, safe)
    ensures InOrderStore(h, st, next) && |st.version| == NUM_LEVELS && LevelsOk(st.version)
    ensures safe ==> ReadsHistory(h, st.Entries(), oldest)
  {
    hide ReadsHistory;
  }

  lemma CoreAnswers(h: seq<Entry>, st: Store, next: nat, running: Option<Running>, contents: seq<Entry>, oldest: nat,
                    safe: bool, s: nat)
    requires CoreOk(h, st, next, running, contents, oldest, safe) && oldest <= s
    ensures InOrderStore(h, st, next) && Distinct(st.Entries())
    ensures safe ==> forall k :: Read(st.Entries(), k, s) == ReadAt(h, k, s)
  {
    EntriesWritten(h, st, next);
    hide InOrderStore, Distinct, Store.Entries, Read, ReadAt;
  }

  /** The new version after a trivial move. */
  method MoveToNextLevel(options: Options, ghost h: seq<Entry>, st: Store, ghost next: nat, c: Inputs) returns (v': Version)
    requires InOrderStore(h, st, next) && InputsOk(st.version, c) && IsTrivialMove(options, c)
    ensures Edited(st.version, v', MoveEdit(c))
  {
    hide *;
    assert |c.inputs0| == 1 by { IsMove(options, c); }
    StoreParts(h, st, next);
    LevelsSorted(st.tables, st.version);
    MoveIsFresh(st.tables, st.version, c);
    v' := ApplyEdit(st.version, MoveEdit(c));
  }

  lemma IsMove(options: Options, c: Inputs)
    requires IsTrivialMove(options, c)
    ensures |c.inputs0| == 1 && c.inputs1 == []
  {
  }

  lemma CompactingSorted(h: seq<Entry>, t: Tables, v: Version, c: Inputs, contents: seq<Entry>)
    requires Compacting(h, t, v, c, contents)
    ensures Sorted(contents)
  {
  }

  lemma InputsLevels(v: Version, c: Inputs)
    requires InputsOk(v, c)
    ensures LevelsOk(v) && c.level + 1 < NUM_LEVELS
  {
  }

  /** Merges the inputs and drops what no reader at or above `oldest` can see. */
  method MergeInputs(options: Options, ghost h: seq<Entry>, st: Store, ghost next: nat, c: Inputs, oldest: SequenceNumber,
                     fileSize: seq<Entry> -> nat)
    returns (r: Running, ghost contents: seq<Entry>)
    requires InOrderStore(h, st, next) && InputsOk(st.version, c) && oldest < MAX_SEQUENCE
    ensures RunningOk(h, st, r, contents, oldest) && r.inputs == c && r.smallestSnapshot == oldest
    ensures CutWhereDue(options, c.grandparents, contents, fileSize, r.outputs)
  {
    hide *;
    StoreParts(h, st, next);
    InputsLevels(st.version, c);
    var progress := new Progress(options, st.version, c);
    var input := MakeInputIterator(h, st.tables, st.version, c);
    contents := input.contents;
    CompactingSorted(h, st.tables, st.version, c, contents);
    var outputs := DoCompactionWork(progress, input, oldest, fileSize);
    r := Running(c, oldest, outputs);
    NoneEmpty(options, c.grandparents, contents, fileSize, outputs);
    RunningBy(h, st, r, contents, oldest);
  }

  lemma NoneEmpty(options: Options, g: seq<FileMeta>, c: seq<Entry>, fileSize: seq<Entry> -> nat, outputs: seq<seq<Entry>>)
    requires CutWhereDue(options, g, c, fileSize, outputs)
    ensures forall o :: o in outputs ==> o != []
  {
    hide GoesOn, EndsDue;
  }

  lemma RunningBy(h: seq<Entry>, st: Store, r: Running, contents: seq<Entry>, oldest: nat)
    requires Compacting(h, st.tables, st.version, r.inputs, contents)
    requires forall o :: o in r.outputs ==> o != []
    requires |st.version| == NUM_LEVELS && r.smallestSnapshot == oldest
    requires Flatten(r.outputs) == Kept(contents, r.smallestSnapshot, st.version, r.inputs.level, |contents|)
    ensures RunningOk(h, st, r, contents, oldest)
  {
  }

  lemma CoreStart(h: seq<Entry>, st: Store, next: nat, contents: seq<Entry>, oldest: nat, safe: bool, r: Running, merged: seq<Entry>)
    requires CoreOk(h, st, next, None, contents, oldest, safe) && RunningOk(h, st, r, merged, oldest)
    ensures CoreOk(h, st, next, Some(r), merged, oldest, safe)
  {
  }

  lemma RunningParts(h: seq<Entry>, st: Store, next: nat, r: Running, contents: seq<Entry>, oldest: nat, safe: bool)
    requires CoreOk(h, st, next, Some(r), contents, oldest, safe)
    ensures InOrderStore(h, st, next) && InputsOk(st.version, r.inputs)
    ensures forall n :: n in st.tables ==> n < next
    ensures forall o :: o in r.outputs ==> o != []
  {
    CompactingParts(h, st.tables, st.version, r.inputs, contents);
    hide InputsOk, ReadsHistory;
  }

  /** What InstallCompactionResults makes of the tables and the version. */
  ghost predicate Installed(t: Tables, v: Version, next: nat, r: Running, fileSize: seq<Entry> -> nat, t': Tables, v': Version) {
    && (forall n :: n < next ==> (n in t <==> n in t') && (n in t ==> t[n] == t'[n]))
    && exists outs :: InstalledAs(v, next, r, fileSize, t', v', outs)
  }

  ghost predicate InstalledAs(v: Version, next: nat, r: Running, fileSize: seq<Entry> -> nat, t': Tables, v': Version, outs: seq<FileMeta>) {
    && WrittenOut(r.outputs, next, t', outs) && Edited(v, v', CompactionEdit(r.inputs, outs))
    && forall i :: 0 <= i < |outs| ==> outs[i].size == fileSize(r.outputs[i])
  }

  /** Writes the outputs and makes the new version. */
  method WriteAndEdit(ghost h: seq<Entry>, st: Store, next: nat, r: Running, ghost contents: seq<Entry>, ghost oldest: nat,
                      ghost safe: bool, fileSize: seq<Entry> -> nat)
    returns (t': Tables, outs: seq<FileMeta>, v': Version)
    requires CoreOk(h, st, next, Some(r), contents, oldest, safe)
    ensures WrittenOut(r.outputs, next, t', outs)
    ensures forall n :: n < next ==> (n in st.tables <==> n in t') && (n in st.tables ==> st.tables[n] == t'[n])
    ensures forall n :: n in t' ==> n < next + |r.outputs|
    ensures Edited(st.version, v', CompactionEdit(r.inputs, outs))
    ensures Installed(st.tables, st.version, next, r, fileSize, t', v') && InstalledAs(st.version, next, r, fileSize, t', v', outs)
  {
    hide *;
    RunningParts(h, st, next, r, contents, oldest, safe);
    StoreParts(h, st, next);
    LevelsSorted(st.tables, st.version);
    t', outs := WriteOutputs(st.tables, next, r.outputs, fileSize);
    CompactionIsFresh(st, next, r.inputs, r.outputs, t', outs);
    v' := ApplyEdit(st.version, CompactionEdit(r.inputs, outs));
    InstalledBy(st.tables, st.version, next, r, fileSize, t', v', outs);
  }

  lemma InstalledBy(t: Tables, v: Version, next: nat, r: Running, fileSize: seq<Entry> -> nat, t': Tables, v': Version, outs: seq<FileMeta>)
    requires forall n :: n < next ==> (n in t <==> n in t') && (n in t ==> t[n] == t'[n])
    requires WrittenOut(r.outputs, next, t', outs) && Edited(v, v', CompactionEdit(r.inputs, outs))
    requires |outs| == |r.outputs| && forall i :: 0 <= i < |outs| ==> outs[i].size == fileSize(r.outputs[i])
    ensures Installed(t, v, next, r, fileSize, t', v') && InstalledAs(v, next, r, fileSize, t', v', outs)
  {
    hide WrittenOut, Edited, CompactionEdit;
    assert InstalledAs(v, next, r, fileSize, t', v', outs);
  }
}
