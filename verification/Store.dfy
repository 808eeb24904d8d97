/** The whole store: memtables over a version, the invariant of every run, and what
    each step does to what readers see. */
module Stores {
  import opened Keys
  import opened History
  import opened Files
  import opened Compactions
  import opened Lsm
  import opened Install
  import opened Merger
  import opened DbIter
  import opened Children

  datatype Store = Store(mem: seq<Entry>, imm: Option<seq<Entry>>, tables: Tables, version: Version) {
    function Imm(): seq<Entry> {
      if imm.Some? then imm.value else []
    }

    /** All stored entries. */
    ghost function Entries(): set<Entry> {
      AllOf(mem) + AllOf(Imm()) + LevelsEntries(tables, version)
    }
  }

  /** Every entry of the run is newer than the version's entries of its user key. */
  ghost predicate AboveVersion(r: seq<Entry>, t: Tables, v: Version) {
    forall l, f :: 0 <= l < |v| && f in v[l] ==> Above(r, Run(t, f))
  }

  ghost predicate NumbersBelow(t: Tables, v: Version, next: nat) {
    && (forall l, f :: 0 <= l < |v| && f in v[l] ==> f.number < next)
    && (forall n :: n in t ==> n < next)
  }

  /** The ordering invariant: every entry is a write; the memtable is above the immutable
      memtable, both are above the version, and the version is in order. */
  ghost predicate InOrderStore(h: seq<Entry>, st: Store, next: nat) {
    && Numbered(h)
    && Sorted(st.mem) && RunWritten(h, st.mem)
    && Sorted(st.Imm()) && RunWritten(h, st.Imm())
    && VersionOk(st.tables, st.version) && VersionWritten(h, st.tables, st.version)
    && Above(st.mem, st.Imm())
    && AboveVersion(st.mem, st.tables, st.version)
    && AboveVersion(st.Imm(), st.tables, st.version)
    && NumbersBelow(st.tables, st.version, next)
  }

  /** Every reader at or above `s` sees the map left by the writes up to its number. */
  ghost predicate ReadsHistory(h: seq<Entry>, es: set<Entry>, s: nat) {
    forall k, r :: s <= r ==> Read(es, k, r) == ReadAt(h, k, r)
  }

  lemma EntriesWritten(h: seq<Entry>, st: Store, next: nat)
    requires InOrderStore(h, st, next)
    ensures forall e :: e in st.Entries() ==> Written(h, e)
    ensures Distinct(st.Entries())
  {
    hide VersionOk, AboveVersion, Above, NumbersBelow, Sorted;
    forall e | e in LevelsEntries(st.tables, st.version)
      ensures Written(h, e)
    {
      var l, f :| 0 <= l < |st.version| && f in st.version[l] && e in Run(st.tables, f);
      assert RunWritten(h, Run(st.tables, f));
    }
    WrittenDistinct(h, st.Entries());
  }

  // ------------------------------------------------------------------ reading

  /** The file a read charges: none if a memtable answers. */
  function StoreCharge(st: Store, k: UserKey, s: SequenceNumber): Option<SeekFile> {
    if RunGet(st.mem, k, s).Some? || RunGet(st.Imm(), k, s).Some? then None
    else ChargedByGet(st.tables, st.version, k, s)
  }

  /** DBImpl::Get: the memtable first, then the immutable one, then the version. */
  method StoreGet(ghost h: seq<Entry>, st: Store, ghost next: nat, k: UserKey, s: SequenceNumber)
    returns (e: Option<Entry>, seekFile: Option<SeekFile>)
    requires InOrderStore(h, st, next)
    ensures Newest(st.Entries(), k, s, e)
    ensures SeekFileOk(st.version, seekFile)
    ensures seekFile == StoreCharge(st, k, s)
  {
    hide VersionOk, LevelsEntries, Newest, AboveVersion, Above, RunGet, ChargedByGet;
    e, seekFile := RunGet(st.mem, k, s), None;
    RunGetNewest(st.mem, k, s);
    var i := RunGet(st.Imm(), k, s);
    RunGetNewest(st.Imm(), k, s);
    ghost var q := NewestOf(LevelsEntries(st.tables, st.version), k, s);
    if e.None? {
      e := i;
      if e.None? {
        e, seekFile := VersionGet(st.tables, st.version, k, s);
        q := e;
      }
    }
    LayersNewest(h, st, next, k, s, q);
  }

  /** The newest entry of the three layers is that of the first layer that has one. */
  lemma LayersNewest(h: seq<Entry>, st: Store, next: nat, k: UserKey, s: SequenceNumber, q: Option<Entry>)
    requires InOrderStore(h, st, next) && Newest(LevelsEntries(st.tables, st.version), k, s, q)
    ensures var m, i := RunGet(st.mem, k, s), RunGet(st.Imm(), k, s);
            Newest(st.Entries(), k, s, if m.Some? then m else if i.Some? then i else q)
  {
    var m, i, v := AllOf(st.mem), AllOf(st.Imm()), LevelsEntries(st.tables, st.version);
    RunGetNewest(st.mem, k, s);
    RunGetNewest(st.Imm(), k, s);
    RunAboveAll(st.mem, st.tables, st.version);
    RunAboveAll(st.Imm(), st.tables, st.version);
    hide InOrderStore, LevelsEntries;
    assert AboveAll(m, i) by { RunAboveRun(h, st, next); }
    NewestOver(i, v, k, s, RunGet(st.Imm(), k, s), q);
    NewestOver(m, i + v, k, s, RunGet(st.mem, k, s), if RunGet(st.Imm(), k, s).Some? then RunGet(st.Imm(), k, s) else q);
    assert m + (i + v) == st.Entries();
  }

  lemma RunAboveRun(h: seq<Entry>, st: Store, next: nat)
    requires InOrderStore(h, st, next)
    ensures AboveAll(AllOf(st.mem), AllOf(st.Imm()))
  {
    assert Above(st.mem, st.Imm());
  }

  lemma RunAboveAll(r: seq<Entry>, t: Tables, v: Version)
    requires AboveVersion(r, t, v)
    ensures AboveAll(AllOf(r), LevelsEntries(t, v))
  {
    forall x, y | x in AllOf(r) && y in LevelsEntries(t, v) && x.key.user == y.key.user
      ensures x.key.sequence > y.key.sequence
    {
      var l, f :| 0 <= l < |v| && f in v[l] && y in Run(t, f);
      assert Above(r, Run(t, f));
    }
  }

  // ------------------------------------------------------------------ iterating

  lemma AboveAllDisjoint(a: set<Entry>, b: set<Entry>)
    requires AboveAll(a, b)
    ensures a !! b
  {
    assert forall e :: e in a && e in b ==> e.key.sequence > e.key.sequence;
  }

  lemma StoreRunsOk(h: seq<Entry>, st: Store, next: nat)
    requires InOrderStore(h, st, next)
    ensures var files := GroupRuns(st.tables, VersionGroups(st.version, NUM_LEVELS));
            var runs := [st.mem] + (if st.imm.Some? then [st.imm.value] + files else files);
            RunsOk(runs) && RunsEntries(runs) == st.Entries()
  {
    RunAboveAll(st.mem, st.tables, st.version);
    RunAboveAll(st.Imm(), st.tables, st.version);
    RunAboveRun(h, st, next);
    VersionGroupsOk(st.tables, st.version, NUM_LEVELS);
    GroupsRunsOk(st.tables, st.version, VersionGroups(st.version, NUM_LEVELS));
    VersionRunsEntries(st.tables, st.version);
    var files := GroupRuns(st.tables, VersionGroups(st.version, NUM_LEVELS));
    hide VersionOk, VersionWritten, AboveVersion, NumbersBelow, Sorted, Less, RunWritten, Above, LevelsEntries, RunsOk, RunsEntries,
      GroupRuns, VersionGroups, AboveAll;
    AboveAllDisjoint(AllOf(st.Imm()), LevelsEntries(st.tables, st.version));
    AboveAllDisjoint(AllOf(st.mem), LevelsEntries(st.tables, st.version));
    AboveAllDisjoint(AllOf(st.mem), AllOf(st.Imm()));
    if st.imm.Some? {
      RunInFront(st.imm.value, files);
      RunInFront(st.mem, [st.imm.value] + files);
    } else {
      RunInFront(st.mem, files);
    }
  }

  /** DBImpl::NewInternalIterator: the merged view of both memtables and all files. */
  method NewInternalIterator(ghost h: seq<Entry>, st: Store, ghost next: nat) returns (m: MergingIterator)
    requires InOrderStore(h, st, next)
    ensures fresh(m.Repr()) && m.Ok()
    ensures Sorted(m.contents) && AllOf(m.contents) == st.Entries()
  {
    StoreRunsOk(h, st, next);
    EntriesWritten(h, st, next);
    ghost var contents := SortSet(st.Entries());
    assert |st.version| == NUM_LEVELS;
    hide *;
    var runs := AddIterators(st.tables, st.version);
    if st.imm.Some? {
      runs := [st.imm.value] + runs;
    }
    runs := [st.mem] + runs;
    RunsInterleave(runs, contents);
    m := NewMergingIterator(runs, contents);
  }

  /** The view of a sorted list of entries shows exactly what reads answer. */
  lemma ViewIsRead(c: seq<Entry>, s: SequenceNumber, k: UserKey)
    requires Sorted(c) && Distinct(AllOf(c))
    ensures forall e :: e in View(c, s) && e.key.user == k ==> Read(AllOf(c), k, s) == Some(e.value)
    ensures Read(AllOf(c), k, s).Some? ==> exists e :: e in View(c, s) && e.key.user == k
  {
    hide View;
    forall e | e in View(c, s) && e.key.user == k
      ensures Read(AllOf(c), k, s) == Some(e.value)
    {
      ViewExact(c, s, e);
      var i :| 0 <= i < |c| && c[i] == e && Live(c, s, i);
      LiveIsNewest(c, s, k, i);
      ReadIs(AllOf(c), k, s, Some(e));
    }
    var n := NewestOf(AllOf(c), k, s);
    if Shown(n).Some? {
      var i := NewestIsLive(c, s, k, n.value);
      ViewExact(c, s, n.value);
    }
  }

  lemma LiveIsNewest(c: seq<Entry>, s: SequenceNumber, k: UserKey, i: nat)
    requires Sorted(c) && i < |c| && Live(c, s, i) && c[i].key.user == k
    ensures Newest(AllOf(c), k, s, Some(c[i]))
  {
    forall x | x in AllOf(c) && VisibleTo(x, k, s)
      ensures x.key.sequence <= c[i].key.sequence
    {
      var j :| 0 <= j < |c| && c[j] == x;
      assert j <= i || Less(c[i].key, c[j].key);
    }
  }

  lemma NewestIsLive(c: seq<Entry>, s: SequenceNumber, k: UserKey, e: Entry) returns (i: nat)
    requires Sorted(c) && Distinct(AllOf(c)) && Newest(AllOf(c), k, s, Some(e)) && e.key.kind.TypeValue?
    ensures i < |c| && c[i] == e && Live(c, s, i)
  {
    i :| 0 <= i < |c| && c[i] == e;
    forall j | 0 <= j < i && c[j].key.user == k
      ensures !Visible(c[j], s)
    {
      assert c[j] in AllOf(c);
      assert Less(c[j].key, c[i].key);
    }
  }

  // ------------------------------------------------------------------ writing

  /** One more write and one more entry: readers see the new map. */
  lemma WriteReads(h: seq<Entry>, es: set<Entry>, s: nat, e: Entry)
    requires (forall x :: x in es ==> Written(h, x)) && e.key.sequence == |h| + 1
    requires ReadsHistory(h, es, s)
    ensures ReadsHistory(h + [e], es + {e}, s)
  {
    WrittenDistinct(h, es);
    assert Distinct(es + {e});
    forall k, r: nat | s <= r
      ensures Read(es + {e}, k, r) == ReadAt(h + [e], k, r)
    {
      ReadAtStep(h, e, k, r);
      if VisibleTo(e, k, r) {
        assert Newest(es + {e}, k, r, Some(e));
        ReadIs(es + {e}, k, r, Some(e));
      } else {
        var n := NewestOf(es, k, r);
        assert Newest(es + {e}, k, r, n);
        ReadIs(es + {e}, k, r, n);
      }
    }
  }

  /** A write puts a newer entry into the memtable. */
  lemma WriteKeeps(h: seq<Entry>, st: Store, next: nat, e: Entry)
    requires InOrderStore(h, st, next) && e.key.sequence == |h| + 1
    ensures InOrderStore(h + [e], st.(mem := InsertEntry(st.mem, e)), next)
    ensures st.(mem := InsertEntry(st.mem, e)).Entries() == st.Entries() + {e}
  {
    InsertEntryOk(st.mem, e);
    hide VersionOk, VersionWritten, AboveVersion, NumbersBelow, Sorted, Less, InsertEntry, RunWritten, Above, LevelsEntries;
    StaysWritten(h, st.mem, e);
    StaysWritten(h, st.Imm(), e);
    InsertWritten(h, st.mem, e);
    VersionStaysWritten(h, st.tables, st.version, e);
    NewestAboveRun(h, st.mem, st.Imm(), e);
    NewestAbove(h, st.mem, st.tables, st.version, e);
    assert AllOf(InsertEntry(st.mem, e)) == AllOf(st.mem) + {e};
  }

  lemma StaysWritten(h: seq<Entry>, r: seq<Entry>, e: Entry)
    requires RunWritten(h, r)
    ensures RunWritten(h + [e], r)
  {
  }

  lemma InsertWritten(h: seq<Entry>, r: seq<Entry>, e: Entry)
    requires RunWritten(h, r) && Sorted(r) && e.key.sequence == |h| + 1
    ensures RunWritten(h + [e], InsertEntry(r, e))
  {
    InsertEntryOk(r, e);
    hide InsertEntry, Sorted;
  }

  lemma VersionStaysWritten(h: seq<Entry>, t: Tables, v: Version, e: Entry)
    requires VersionWritten(h, t, v)
    ensures VersionWritten(h + [e], t, v)
  {
    forall l, f | 0 <= l < |v| && f in v[l]
      ensures RunWritten(h + [e], Run(t, f))
    {
      assert RunWritten(h, Run(t, f));
    }
  }

  /** A newer entry keeps a run above another. */
  lemma NewestAboveRun(h: seq<Entry>, r: seq<Entry>, q: seq<Entry>, e: Entry)
    requires Sorted(r) && RunWritten(h, r) && RunWritten(h, q) && Above(r, q) && e.key.sequence == |h| + 1
    ensures Above(InsertEntry(r, e), q)
  {
    InsertEntryOk(r, e);
    hide InsertEntry, Sorted;
  }

  lemma NewestAbove(h: seq<Entry>, r: seq<Entry>, t: Tables, v: Version, e: Entry)
    requires VersionWritten(h, t, v) && AboveVersion(r, t, v) && e.key.sequence == |h| + 1
    requires Sorted(r) && RunWritten(h, r)
    ensures AboveVersion(InsertEntry(r, e), t, v)
  {
    hide InsertEntry, Sorted, Above, RunWritten;
    forall l, f | 0 <= l < |v| && f in v[l]
      ensures Above(InsertEntry(r, e), Run(t, f))
    {
      NewestAboveRun(h, r, Run(t, f), e);
    }
  }
}
