/** What the tables hold without the memtables, which a crash takes away: the first
    writes, as long as every compaction was safe for readers of the tables alone. */
module Durable {
  import opened Keys
  import opened History
  import opened Files
  import opened Compactions
  import opened CompactionWork
  import opened Lsm
  import opened Install
  import opened Reads
  import opened Boundary
  import opened Stores
  import opened Steps
  import opened Core
  import opened Alone

  /** The first `flushed` writes have left both memtables, those up to `switched` are in
      the immutable memtable, and the others in the memtable. */
  ghost predicate PlacesOk(h: seq<Entry>, st: Store, flushed: nat, switched: nat) {
    && flushed <= switched <= |h|
    && AllOf(st.mem) == AllOf(h[switched..]) && AllOf(st.Imm()) == AllOf(h[flushed..switched])
  }

  /** Read alone, the tables show the map left by the first writes. */
  ghost predicate TablesRead(h: seq<Entry>, t: Tables, v: Version, flushed: nat) {
    flushed <= |h| && ReadsHistory(h[..flushed], LevelsEntries(t, v), flushed)
  }

  ghost predicate AllWritten(h: seq<Entry>, es: set<Entry>) {
    forall e :: e in es ==> Written(h, e)
  }

  // ------------------------------------------------------------------ where the entries are

  lemma LevelsApart(h: seq<Entry>, st: Store, next: nat)
    requires InOrderStore(h, st, next)
    ensures AllOf(st.mem) !! LevelsEntries(st.tables, st.version)
    ensures AllOf(st.Imm()) !! LevelsEntries(st.tables, st.version)
  {
    RunAboveAll(st.mem, st.tables, st.version);
    RunAboveAll(st.Imm(), st.tables, st.version);
    hide InOrderStore, AboveAll, AboveVersion, LevelsEntries, AllOf;
    AboveAllDisjoint(AllOf(st.mem), LevelsEntries(st.tables, st.version));
    AboveAllDisjoint(AllOf(st.Imm()), LevelsEntries(st.tables, st.version));
  }

  lemma LevelsWritten(h: seq<Entry>, st: Store, next: nat)
    requires InOrderStore(h, st, next)
    ensures AllWritten(h, LevelsEntries(st.tables, st.version))
  {
    EntriesWritten(h, st, next);
    hide InOrderStore, LevelsEntries, AllOf, Written;
  }

  lemma InMemTables(h: seq<Entry>, flushed: nat, switched: nat, e: Entry)
    requires flushed <= switched <= |h| && Written(h, e) && e.key.sequence > flushed
    ensures e in AllOf(h[flushed..switched]) || e in AllOf(h[switched..])
  {
    var i := e.key.sequence - 1;
    assert if i < switched then h[flushed..switched][i - flushed] == e else h[switched..][i - switched] == e;
  }

  /** The tables hold nothing but the first writes. */
  lemma TablesPast(h: seq<Entry>, st: Store, next: nat, flushed: nat, switched: nat)
    requires InOrderStore(h, st, next) && PlacesOk(h, st, flushed, switched)
    ensures AllWritten(h[..flushed], LevelsEntries(st.tables, st.version))
  {
    LevelsApart(h, st, next);
    LevelsWritten(h, st, next);
    hide InOrderStore, LevelsEntries, AllOf;
    forall e | e in LevelsEntries(st.tables, st.version)
      ensures Written(h[..flushed], e)
    {
      if e.key.sequence > flushed {
        InMemTables(h, flushed, switched, e);
        assert false;
      }
    }
  }

  lemma WritePlaces(h: seq<Entry>, st: Store, flushed: nat, switched: nat, es: seq<Entry>, st': Store)
    requires PlacesOk(h, st, flushed, switched)
    requires st'.imm == st.imm && AllOf(st'.mem) == AllOf(st.mem) + AllOf(es)
    ensures PlacesOk(h + es, st', flushed, switched)
  {
    assert (h + es)[switched..] == h[switched..] + es && (h + es)[flushed..switched] == h[flushed..switched];
    AllOfBoth(h[switched..], es);
    hide AllOf;
  }

  lemma AllOfBoth(a: seq<Entry>, b: seq<Entry>)
    ensures AllOf(a + b) == AllOf(a) + AllOf(b)
  {
  }

  lemma WriteTables(h: seq<Entry>, t: Tables, v: Version, flushed: nat, es: seq<Entry>)
    requires TablesRead(h, t, v, flushed)
    ensures TablesRead(h + es, t, v, flushed)
  {
    hide ReadsHistory, LevelsEntries;
    assert (h + es)[..flushed] == h[..flushed];
  }

  lemma SomeOf(r: seq<Entry>)
    ensures AllOf(r) == {} ==> r == []
  {
    if r != [] {
      assert r[0] in AllOf(r);
    }
  }

  /** A memtable switch. */
  lemma SwitchPlaces(h: seq<Entry>, st: Store, flushed: nat, switched: nat)
    requires PlacesOk(h, st, flushed, switched) && st.imm.None?
    ensures PlacesOk(h, st.(mem := [], imm := Some(st.mem)), flushed, |h|)
  {
    SomeOf(h[flushed..switched]);
    assert h[flushed..|h|] == h[switched..] && h[|h|..] == [];
  }

  /** Background work that keeps all entries moves those of the immutable memtable to the tables. */
  lemma FlushLevels(h: seq<Entry>, st: Store, next: nat, st': Store, next': nat)
    requires InOrderStore(h, st, next) && InOrderStore(h, st', next')
    requires st'.mem == st.mem && st'.Imm() == [] && st'.Entries() == st.Entries()
    ensures LevelsEntries(st'.tables, st'.version) == LevelsEntries(st.tables, st.version) + AllOf(st.Imm())
  {
    LevelsApart(h, st, next);
    LevelsApart(h, st', next');
    assert AllOf(st'.Imm()) == {};
    assert AllOf(st.mem) !! AllOf(st.Imm()) by {
      RunAboveRun(h, st, next);
      AboveAllDisjoint(AllOf(st.mem), AllOf(st.Imm()));
    }
    hide InOrderStore, LevelsEntries, AllOf;
  }

  lemma FlushPlaces(h: seq<Entry>, st: Store, flushed: nat, switched: nat, st': Store)
    requires PlacesOk(h, st, flushed, switched) && st'.mem == st.mem && st'.Imm() == []
    ensures PlacesOk(h, st', switched, switched)
  {
    assert h[switched..switched] == [];
  }

  /** A layer of the next writes over tables that read as the first ones. */
  lemma {:induction false} LayerReads(h: seq<Entry>, es: set<Entry>, first: nat, n: nat)
    requires Numbered(h) && first <= n <= |h| && AllWritten(h[..first], es) && ReadsHistory(h[..first], es, first)
    ensures AllWritten(h[..n], es + AllOf(h[first..n])) && ReadsHistory(h[..n], es + AllOf(h[first..n]), first)
    decreases n
  {
    hide ReadsHistory;
    if n == first {
      assert h[first..n] == [] && es + AllOf([]) == es;
    } else {
      LayerReads(h, es, first, n - 1);
      var e := h[n - 1];
      assert h[..n] == h[..n - 1] + [e] && h[first..n] == h[first..n - 1] + [e];
      AllOfBoth(h[first..n - 1], [e]);
      assert es + AllOf(h[first..n]) == es + AllOf(h[first..n - 1]) + {e};
      WriteReads(h[..n - 1], es + AllOf(h[first..n - 1]), first, e);
    }
  }

  lemma LaterReads(h: seq<Entry>, es: set<Entry>, s: nat, r: nat)
    requires ReadsHistory(h, es, s) && s <= r
    ensures ReadsHistory(h, es, r)
  {
    hide Read, ReadAt;
  }

  lemma StoreNumbered(h: seq<Entry>, st: Store, next: nat)
    requires InOrderStore(h, st, next)
    ensures Numbered(h)
  {
  }

  lemma FlushTables(h: seq<Entry>, st: Store, next: nat, flushed: nat, switched: nat, st': Store, next': nat)
    requires InOrderStore(h, st, next) && InOrderStore(h, st', next') && PlacesOk(h, st, flushed, switched)
    requires st'.mem == st.mem && st'.Imm() == [] && st'.Entries() == st.Entries()
    requires TablesRead(h, st.tables, st.version, flushed)
    ensures TablesRead(h, st'.tables, st'.version, switched)
  {
    TablesPast(h, st, next, flushed, switched);
    FlushLevels(h, st, next, st', next');
    StoreNumbered(h, st, next);
    hide InOrderStore, LevelsEntries, AllOf, ReadsHistory, Store.Entries;
    var es := LevelsEntries(st.tables, st.version);
    LayerReads(h, es, flushed, switched);
    LaterReads(h[..switched], es + AllOf(h[flushed..switched]), flushed, switched);
  }

  // ------------------------------------------------------------------ compaction

  /** Every user key is safe even without the memtables. */
  ghost predicate SafeOnDisk(t: Tables, v: Version, c: Inputs, s: SequenceNumber)
    requires |v| == NUM_LEVELS && c.level + 1 < NUM_LEVELS
  {
    forall k :: SafeKey(StayingEntries(t, v, c), LeftEntries(t, v, c), InputEntries(t, c), s, BaseKeys(v, c.level), k)
  }

  /** Closed lower inputs are enough. */
  lemma ClosedIsSafeOnDisk(h: seq<Entry>, st: Store, next: nat, c: Inputs, s: SequenceNumber)
    requires InOrderStore(h, st, next) && InputsOk(st.version, c) && LowerClosed(st.version, c)
    ensures |st.version| == NUM_LEVELS && c.level + 1 < NUM_LEVELS && SafeOnDisk(st.tables, st.version, c, s)
  {
    LowerClosedIsSafe(h, {}, st.tables, st.version, c, s);
    InputsInLevels(st.version, c);
    hide InOrderStore, InputsOk, StayingEntries, LeftEntries, InputEntries, SafeKey, BaseKeys, LowerClosed;
    assert {} + StayingEntries(st.tables, st.version, c) == StayingEntries(st.tables, st.version, c);
  }

  /** The tables alone read the same before and after exactly when the compaction is safe on disk. */
  lemma DiskReads(h: seq<Entry>, st: Store, next: nat, c: Inputs, contents: seq<Entry>, s: SequenceNumber)
    requires InOrderStore(h, st, next) && Compacting(h, st.tables, st.version, c, contents)
    ensures |st.version| == NUM_LEVELS && c.level + 1 < NUM_LEVELS
    ensures SafeOnDisk(st.tables, st.version, c, s) <==>
            SameReads(LevelsEntries(st.tables, st.version),
                      StayingEntries(st.tables, st.version, c) + AllOf(Kept(contents, s, st.version, c.level, |contents|)), s)
  {
    hide *;
    var t, v := st.tables, st.version;
    CompactingParts(h, t, v, c, contents);
    StoreParts(h, st, next);
    LevelsWritten(h, st, next);
    EntriesBefore(t, v, c);
    StayingApart(t, v, c);
    ThinsOnDisk(h, t, v, c, contents, s);
    LevelsDistinct(h, LevelsEntries(t, v));
    SafeIffSameReads(StayingEntries(t, v, c), LeftEntries(t, v, c), InputEntries(t, c),
                     AllOf(Kept(contents, s, v, c.level, |contents|)), s, BaseKeys(v, c.level));
    SafeOnDiskIs(t, v, c, s);
  }

  lemma ThinsOnDisk(h: seq<Entry>, t: Tables, v: Version, c: Inputs, contents: seq<Entry>, s: SequenceNumber)
    requires Compacting(h, t, v, c, contents) && |v| == NUM_LEVELS && c.level + 1 < NUM_LEVELS
    ensures Thinned(StayingEntries(t, v, c), LeftEntries(t, v, c), InputEntries(t, c),
                    AllOf(Kept(contents, s, v, c.level, |contents|)), s, BaseKeys(v, c.level))
  {
    hide Compacting, StayingEntries, LeftEntries, InputEntries, BaseKeys, Kept, Thinned;
    CompactionThins(h, {}, t, v, c, contents, s);
    assert {} + StayingEntries(t, v, c) == StayingEntries(t, v, c);
  }

  lemma LevelsDistinct(h: seq<Entry>, es: set<Entry>)
    requires AllWritten(h, es)
    ensures Distinct(es)
  {
    WrittenDistinct(h, es);
  }

  lemma SafeOnDiskIs(t: Tables, v: Version, c: Inputs, s: SequenceNumber)
    requires |v| == NUM_LEVELS && c.level + 1 < NUM_LEVELS
    ensures SafeOnDisk(t, v, c, s) <==>
            forall k :: SafeKey(StayingEntries(t, v, c), LeftEntries(t, v, c), InputEntries(t, c), s, BaseKeys(v, c.level), k)
  {
  }

  /** Readers past every entry all see the same. */
  lemma PastReads(h: seq<Entry>, es: set<Entry>, k: UserKey, r: nat, q: nat)
    requires AllWritten(h, es) && |h| <= r <= q
    ensures Read(es, k, r) == Read(es, k, q)
  {
    LevelsDistinct(h, es);
    assert Newest(es, k, r, NewestOf(es, k, q));
    ReadIs(es, k, r, NewestOf(es, k, q));
  }

  lemma SamePast(h: seq<Entry>, a: set<Entry>, b: set<Entry>, s: nat)
    requires s <= MAX_SEQUENCE && ReadsHistory(h, a, |h|) && SameReads(a, b, s) && AllWritten(h, a) && AllWritten(h, b)
    ensures ReadsHistory(h, b, |h|)
  {
    hide Read, ReadAt, AllWritten;
    forall k, r: nat | |h| <= r
      ensures Read(b, k, r) == ReadAt(h, k, r)
    {
      var q := if s < r then r else s;
      PastReads(h, a, k, r, q);
      PastReads(h, b, k, r, q);
    }
  }

  /** The tables after a compaction is installed. */
  lemma InstallLevels(h: seq<Entry>, st: Store, next: nat, r: Running, contents: seq<Entry>, oldest: nat, st': Store, next': nat)
    requires InOrderStore(h, st, next) && InOrderStore(h, st', next') && RunningOk(h, st, r, contents, oldest)
    requires st'.mem == st.mem && st'.imm == st.imm && st'.Entries() == AfterInstall(st, r, contents)
    ensures |st.version| == NUM_LEVELS
    ensures LevelsEntries(st'.tables, st'.version) ==
            StayingEntries(st.tables, st.version, r.inputs) +
            AllOf(Kept(contents, r.smallestSnapshot, st.version, r.inputs.level, |contents|))
  {
    hide *;
    var t, v, c := st.tables, st.version, r.inputs;
    RunningIs(h, st, r, contents, oldest);
    CompactingParts(h, t, v, c, contents);
    EntriesBefore(t, v, c);
    KeptWithin(h, t, v, c, contents, r.smallestSnapshot);
    LevelsApart(h, st, next);
    LevelsApart(h, st', next');
    AfterInstallIs(st, r, contents);
    TakeLevels(st, st', c, AllOf(Kept(contents, r.smallestSnapshot, v, c.level, |contents|)));
  }

  lemma KeptWithin(h: seq<Entry>, t: Tables, v: Version, c: Inputs, contents: seq<Entry>, s: SequenceNumber)
    requires Compacting(h, t, v, c, contents) && |v| == NUM_LEVELS
    ensures AllOf(Kept(contents, s, v, c.level, |contents|)) <= InputEntries(t, c)
  {
    hide Compacting, InputEntries, Kept;
    forall e | e in Kept(contents, s, v, c.level, |contents|)
      ensures e in InputEntries(t, c)
    {
      KeptFromInput(h, t, v, c, contents, s, e);
    }
  }

  lemma TakeLevels(st: Store, st': Store, c: Inputs, kept: set<Entry>)
    requires st'.mem == st.mem && st'.imm == st.imm && st'.Entries() == Elsewhere(st, c) + kept
    requires LevelsEntries(st.tables, st.version) == StayingEntries(st.tables, st.version, c) + InputEntries(st.tables, c)
    requires kept <= InputEntries(st.tables, c)
    requires AllOf(st.mem) !! LevelsEntries(st.tables, st.version) && AllOf(st.Imm()) !! LevelsEntries(st.tables, st.version)
    requires AllOf(st'.mem) !! LevelsEntries(st'.tables, st'.version) && AllOf(st'.Imm()) !! LevelsEntries(st'.tables, st'.version)
    ensures LevelsEntries(st'.tables, st'.version) == StayingEntries(st.tables, st.version, c) + kept
  {
    hide LevelsEntries, StayingEntries, InputEntries, AllOf;
  }

  /** Installing a compaction that is safe on disk keeps what the tables alone read as. */
  lemma InstallTables(h: seq<Entry>, st: Store, next: nat, r: Running, contents: seq<Entry>, oldest: nat, st': Store, next': nat,
                      flushed: nat, switched: nat)
    requires InOrderStore(h, st, next) && InOrderStore(h, st', next') && RunningOk(h, st, r, contents, oldest)
    requires st'.mem == st.mem && st'.imm == st.imm && st'.Entries() == AfterInstall(st, r, contents)
    requires PlacesOk(h, st, flushed, switched) && TablesRead(h, st.tables, st.version, flushed)
    requires |st.version| == NUM_LEVELS && r.inputs.level + 1 < NUM_LEVELS
    requires SafeOnDisk(st.tables, st.version, r.inputs, r.smallestSnapshot)
    ensures PlacesOk(h, st', flushed, switched) && TablesRead(h, st'.tables, st'.version, flushed)
  {
    hide InOrderStore, RunningOk, AfterInstall, Store.Entries, LevelsEntries, SafeOnDisk, ReadsHistory, AllWritten, AllOf, SameReads,
      StayingEntries, Kept, Compacting;
    RunningIs(h, st, r, contents, oldest);
    InstallLevels(h, st, next, r, contents, oldest, st', next');
    DiskReads(h, st, next, r.inputs, contents, r.smallestSnapshot);
    TablesPast(h, st, next, flushed, switched);
    TablesPast(h, st', next', flushed, switched);
    SamePast(h[..flushed], LevelsEntries(st.tables, st.version), LevelsEntries(st'.tables, st'.version), r.smallestSnapshot);
  }

  /** Without snapshots every compaction is safe on disk. */
  lemma AloneOnDisk(h: seq<Entry>, st: Store, next: nat, r: Running, contents: seq<Entry>, oldest: nat)
    requires InOrderStore(h, st, next) && RunningOk(h, st, r, contents, oldest) && AloneOk(st.version, Some(r))
    ensures |st.version| == NUM_LEVELS && r.inputs.level + 1 < NUM_LEVELS
    ensures SafeOnDisk(st.tables, st.version, r.inputs, r.smallestSnapshot)
  {
    hide InOrderStore, RunningOk, InputsOk, SafeOnDisk, UsersApart, OneEach, Flatten, Compacting, LowerClosed;
    RunningIs(h, st, r, contents, oldest);
    CompactingParts(h, st.tables, st.version, r.inputs, contents);
    ApartIsClosed(st.version, r.inputs);
    ClosedIsSafeOnDisk(h, st, next, r.inputs, r.smallestSnapshot);
  }
}
