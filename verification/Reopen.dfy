/** DB::Open after a crash: from the tables, the manifest and what is left of the logs to
    a database that holds what was stored and what the logs replay. */
module Reopening {
  import opened Keys
  import opened History
  import opened Files
  import opened Compactions
  import opened Reads
  import opened Lsm
  import opened Builders
  import opened Install
  import opened Stores
  import opened Steps
  import opened Core
  import opened Alone
  import opened Durable
  import opened Coding
  import opened Logs
  import opened Batches
  import opened Recovery
  import opened GroupCommit
  import opened Joint
  import Manifest
  import Db
  import Runs

  /** Nothing is in the memtables or running, and every later reader sees the map left by
      the writes. */
  ghost predicate Clean(h: seq<Entry>, st: Store, next: nat, alone: bool) {
    && CoreOk(h, st, next, None, [], |h|, true) && st.mem == [] && st.imm.None?
    && (alone ==> AloneOk(st.version, None))
  }

  // ------------------------------------------------------------------ sequence numbers that were lost

  lemma {:induction false} FreshKey(s: set<UserKey>) returns (k: UserKey)
    ensures forall x :: x in s ==> x < k
  {
    k := 0.0;
    if x :| x in s {
      var above := FreshKey(s - {x});
      k := if above <= x then x + 1.0 else above;
      assert forall y :: y in s ==> y == x || y in s - {x};
    }
  }

  /** Deleting a key that is not there changes nothing for any reader. */
  lemma IdleWrite(h: seq<Entry>, st: Store, next: nat, oldest: nat, e: Entry)
    requires CoreOk(h, st, next, None, [], oldest, true)
    requires e.key.sequence == |h| + 1 && e.key.kind.TypeDeletion? && e.key.user !in Replay(h)
    ensures CoreOk(h + [e], st, next, None, [], oldest, true) && Replay(h + [e]) == Replay(h)
  {
    hide InOrderStore, ReadsHistory, Replay, Store.Entries;
    IdleReplay(h, e);
    IdleStore(h, st, next, e);
    IdleReads(h, st.Entries(), oldest, e);
  }

  lemma IdleReplay(h: seq<Entry>, e: Entry)
    requires e.key.kind.TypeDeletion? && e.key.user !in Replay(h)
    ensures Replay(h + [e]) == Replay(h)
  {
    assert (h + [e])[..|h|] == h;
    assert Replay(h) - {e.key.user} == Replay(h);
  }

  lemma IdleStore(h: seq<Entry>, st: Store, next: nat, e: Entry)
    requires InOrderStore(h, st, next) && e.key.sequence == |h| + 1
    ensures InOrderStore(h + [e], st, next)
  {
    hide Sorted, VersionOk, VersionWritten, AboveVersion, NumbersBelow, RunWritten, Above;
    StaysWritten(h, st.mem, e);
    StaysWritten(h, st.Imm(), e);
    VersionStaysWritten(h, st.tables, st.version, e);
  }

  lemma IdleReads(h: seq<Entry>, es: set<Entry>, oldest: nat, e: Entry)
    requires ReadsHistory(h, es, oldest) && e.key.sequence == |h| + 1 && e.key.kind.TypeDeletion? && e.key.user !in Replay(h)
    ensures ReadsHistory(h + [e], es, oldest)
  {
    hide Read;
    forall k, r: nat | oldest <= r
      ensures Read(es, k, r) == ReadAt(h + [e], k, r)
    {
      ReadAtStep(h, e, k, r);
    }
  }

  /** Sequence numbers may be passed over: it is as if keys that are not there were deleted. */
  lemma {:induction false} Skip(h: seq<Entry>, st: Store, next: nat, oldest: nat, n: nat) returns (h': seq<Entry>)
    requires CoreOk(h, st, next, None, [], oldest, true) && |h| <= n <= MAX_SEQUENCE
    ensures |h'| == n && Replay(h') == Replay(h) && CoreOk(h', st, next, None, [], oldest, true)
    decreases n - |h|
  {
    hide CoreOk, Replay;
    h' := h;
    if |h| < n {
      var k := FreshKey(Replay(h).Keys);
      var e := Entry(InternalKey(k, |h| + 1, TypeDeletion), "");
      IdleWrite(h, st, next, oldest, e);
      h' := Skip(h + [e], st, next, oldest, n);
    }
  }

  // ------------------------------------------------------------------ one log

  lemma {:induction false} SameReplay(g: seq<Entry>, h: seq<Entry>, es: seq<Entry>)
    requires Replay(g) == Replay(h)
    ensures Replay(g + es) == Replay(h + es)
    decreases |es|
  {
    if es == [] {
      assert g + es == g && h + es == h;
    } else {
      var n := |es| - 1;
      SameReplay(g, h, es[..n]);
      assert (g + es)[..|g + es| - 1] == g + es[..n] && (h + es)[..|h + es| - 1] == h + es[..n];
    }
  }

  /** The memtable waits to be stored; no log is opened for another one. */
  lemma CoreTurn(h: seq<Entry>, st: Store, next: nat, oldest: nat)
    requires CoreOk(h, st, next, None, [], oldest, true) && st.imm.None?
    ensures CoreOk(h, st.(mem := [], imm := Some(st.mem)), next, None, [], oldest, true)
  {
    hide InOrderStore, ReadsHistory, Store.Entries;
    SwitchKeeps(h, st, next);
  }

  /** WriteLevel0Table without a version to look at: the file goes to level 0. */
  method StoreOnTop(ghost h: seq<Entry>, st: Store, next: nat, ghost oldest: nat, fileSize: seq<Entry> -> nat) returns (st': Store)
    requires CoreOk(h, st, next, None, [], oldest, true) && st.imm.None? && st.mem != []
    ensures CoreOk(h, st', next + 1, None, [], oldest, true) && st'.mem == [] && st'.imm.None?
    ensures AloneOk(st.version, None) ==> AloneOk(st'.version, None)
    ensures st'.tables == st.tables[next := st.mem]
    ensures Edited(st.version, st'.version, FileEdit({}, [(0, OutputMeta(st.mem, next, fileSize(st.mem)))]))
  {
    hide CoreOk, InOrderStore, AloneOk, Edited, FreshEdit, SortedFiles;
    var f := OutputMeta(st.mem, next, fileSize(st.mem));
    ghost var turned := st.(mem := [], imm := Some(st.mem));
    CoreTurn(h, st, next, oldest);
    CoreParts(h, turned, next, None, [], oldest, true);
    StoreParts(h, turned, next);
    LevelsSorted(st.tables, st.version);
    FlushIsFresh(h, turned, next, f, 0);
    var v' := ApplyEdit(st.version, FileEdit({}, [(0, f)]));
    CoreFlush(h, turned, next, [], oldest, true, f, 0, v');
    FlushAlone(st.version, v', 0, f);
    st' := Store([], None, st.tables[next := st.mem], v');
  }

  /** The entries cut behind those where the memtable is found too big: what is cut off, and
      what is left open. */
  function Split(cut: nat -> bool, es: seq<Entry>): (seq<seq<Entry>>, seq<Entry>) {
    if es == [] then ([], []) else
    var (done, open), e := Split(cut, es[..|es| - 1]), es[|es| - 1];
    if cut(e.key.sequence) then (done + [open + [e]], []) else (done, open + [e])
  }

  /** All of them, the open rest included. */
  function Chunks(cut: nat -> bool, es: seq<Entry>): seq<seq<Entry>> {
    var (done, open) := Split(cut, es);
    if open == [] then done else done + [open]
  }

  /** Each of the runs has become a table of its own on level 0; nothing else has changed. */
  ghost predicate StoredAs(st: Store, next: nat, runs: seq<seq<Entry>>, fileSize: seq<Entry> -> nat, st': Store, next': nat) {
    && next' == next + |runs| && |st.version| == |st'.version| == NUM_LEVELS
    && (forall n :: n < next ==> (n in st.tables <==> n in st'.tables) && (n in st.tables ==> st.tables[n] == st'.tables[n]))
    && (forall n :: next <= n < next' ==> n in st'.tables && AllOf(st'.tables[n]) == AllOf(runs[n - next]))
    && (forall l, g :: 0 < l < NUM_LEVELS ==> (g in st'.version[l] <==> g in st.version[l]))
    && (forall g :: g in st'.version[0] <==> g in st.version[0] || exists n :: next <= n < next' && IsTable(st'.tables, n, fileSize, g))
  }

  predicate IsTable(t: Tables, n: nat, fileSize: seq<Entry> -> nat, g: FileMeta) {
    n in t && t[n] != [] && g == OutputMeta(t[n], n, fileSize(t[n]))
  }

  lemma StoredGrows(st: Store, next: nat, runs: seq<seq<Entry>>, fileSize: seq<Entry> -> nat, st': Store, next': nat)
    requires StoredAs(st, next, runs, fileSize, st', next')
    ensures next <= next'
  {
  }

  lemma StoredNone(st: Store, next: nat, fileSize: seq<Entry> -> nat, mem: seq<Entry>)
    requires |st.version| == NUM_LEVELS
    ensures StoredAs(st, next, [], fileSize, st.(mem := mem), next)
  {
  }

  lemma StoredMem(st: Store, next: nat, runs: seq<seq<Entry>>, fileSize: seq<Entry> -> nat, a: Store, n: nat, mem: seq<Entry>)
    requires StoredAs(st, next, runs, fileSize, a, n)
    ensures StoredAs(st, next, runs, fileSize, a.(mem := mem), n)
  {
    hide AllOf, IsTable;
  }

  lemma StoredMore(st: Store, next: nat, runs: seq<seq<Entry>>, fileSize: seq<Entry> -> nat, a: Store, n: nat, run: seq<Entry>, b: Store)
    requires StoredAs(st, next, runs, fileSize, a, n) && a.mem != [] && AllOf(a.mem) == AllOf(run)
    requires b.tables == a.tables[n := a.mem] && Edited(a.version, b.version, FileEdit({}, [(0, OutputMeta(a.mem, n, fileSize(a.mem)))]))
    ensures StoredAs(st, next, runs + [run], fileSize, b, n + 1)
  {
    hide AllOf, SortedFiles;
    var f := OutputMeta(a.mem, n, fileSize(a.mem));
    forall l, g | 0 <= l < NUM_LEVELS
      ensures g in b.version[l] <==> g in a.version[l] || (l == 0 && g == f)
    {
      assert (l, g) in [(0, f)] <==> l == 0 && g == f;
    }
    forall k: nat, g | k <= n
      ensures IsTable(b.tables, k, fileSize, g) <==> if k < n then IsTable(a.tables, k, fileSize, g) else g == f
    {
    }
    hide IsTable;
    assert IsTable(b.tables, n, fileSize, f);
  }

  lemma SplitMore(cut: nat -> bool, es: seq<Entry>, i: nat)
    requires i < |es|
    ensures var (done, open) := Split(cut, es[..i]);
            Split(cut, es[..i + 1]) ==
            if cut(es[i].key.sequence) then (done + [open + [es[i]]], []) else (done, open + [es[i]])
  {
    assert es[..i + 1][..i] == es[..i];
  }

  lemma MoreOpen(open: seq<Entry>, e: Entry)
    ensures AllOf(open + [e]) == AllOf(open) + {e}
  {
  }

  /** The entries go into memtables, which are stored where the memtable is found too big,
      and at the end. */
  method InsertAll(ghost h: seq<Entry>, st: Store, next: nat, ghost oldest: nat, es: seq<Entry>, cut: nat -> bool,
                   fileSize: seq<Entry> -> nat)
    returns (st': Store, next': nat)
    requires CoreOk(h, st, next, None, [], oldest, true) && st.mem == [] && st.imm.None?
    requires forall i :: 0 <= i < |es| ==> es[i].key.sequence == |h| + i + 1
    ensures CoreOk(h + es, st', next', None, [], oldest, true) && st'.mem == [] && st'.imm.None?
    ensures StoredAs(st, next, Chunks(cut, es), fileSize, st', next')
    ensures AloneOk(st.version, None) ==> AloneOk(st'.version, None)
  {
    hide CoreOk, AloneOk, InsertEntry, Edited, StoredAs, Split, AllOf;
    st', next' := st, next;
    assert h + es[..0] == h;
    SplitNone(cut);
    CoreParts(h, st, next, None, [], oldest, true);
    StoredNone(st, next, fileSize, []);
    for i := 0 to |es|
      invariant CoreOk(h + es[..i], st', next', None, [], oldest, true) && st'.imm.None?
      invariant var (done, open) := Split(cut, es[..i]);
                && StoredAs(st, next, done, fileSize, st', next')
                && AllOf(st'.mem) == AllOf(open) && (st'.mem == [] <==> open == [])
      invariant AloneOk(st.version, None) ==> AloneOk(st'.version, None)
    {
      CoreWrite(h + es[..i], st', next', None, [], oldest, true, es[i]);
      assert h + es[..i + 1] == h + es[..i] + [es[i]];
      SplitMore(cut, es, i);
      ghost var (done, open) := Split(cut, es[..i]);
      MoreOpen(open, es[i]);
      Db.OneMoreEntry(h + es[..i], st', next', None, [], oldest, true, es[i]);
      StoredMem(st, next, done, fileSize, st', next', InsertEntry(st'.mem, es[i]));
      SomeEntry(st'.mem, es[i]);
      st' := st'.(mem := InsertEntry(st'.mem, es[i]));
      if cut(es[i].key.sequence) {
        ghost var before := st';
        st' := StoreOnTop(h + es[..i + 1], st', next', oldest, fileSize);
        StoredMore(st, next, done, fileSize, before, next', open + [es[i]], st');
        NothingOpen();
        next' := next' + 1;
      }
    }
    assert es[..|es|] == es;
    if st'.mem != [] {
      ghost var before := st';
      st' := StoreOnTop(h + es, st', next', oldest, fileSize);
      StoredMore(st, next, Split(cut, es).0, fileSize, before, next', Split(cut, es).1, st');
      next' := next' + 1;
    }
  }

  lemma SplitNone(cut: nat -> bool)
    ensures Split(cut, []) == ([], []) && AllOf([]) == {}
  {
  }

  lemma NothingOpen()
    ensures AllOf([]) == {}
  {
  }

  lemma SomeEntry(mem: seq<Entry>, e: Entry)
    ensures InsertEntry(mem, e) != []
  {
  }

  /** The batches of a log use the sequence numbers after `first`. */
  lemma {:induction false} LastSequence(bs: seq<Logged>, first: nat)
    requires Follows(bs, first) && bs != []
    ensures MaxSequence(bs) == first + |AllAdds(bs)|
    decreases |bs|
  {
    var n := |bs| - 1;
    if n > 0 {
      assert forall i :: 0 <= i < n ==> bs[..n][..i] == bs[..i];
      LastSequence(bs[..n], first);
    } else {
      assert bs[..0] == [] && AllAdds([]) == [];
    }
  }

  lemma FollowsFront(bs: seq<Logged>, first: nat, k: nat)
    requires Follows(bs, first) && k <= |bs|
    ensures Follows(bs[..k], first) && |AllAdds(bs[..k])| <= |AllAdds(bs)|
  {
    AddsPrefix(bs, k);
    hide AllAdds;
    assert forall i :: 0 <= i < k ==> bs[..k][..i] == bs[..i];
  }

  function Max(a: nat, b: nat): nat {
    if a < b then b else a
  }

  lemma MaxIs(a: nat, b: nat)
    ensures Max(a, b) == if a < b then b else a
  {
  }

  /** How many batches lie wholly in what is left of a log. */
  ghost function LeftOf(step: CrcStep, file: Bytes, bs: seq<Logged>): (k: nat)
    requires AllLogged(bs)
    ensures k <= |bs|
  {
    Complete(step, Reps(bs), 0, |file|)
  }

  /** The entries the log replays, after the writes that were there. */
  ghost predicate ReplayedOver(m: Meaning, h: seq<Entry>, adds: seq<Add>, h': seq<Entry>) {
    Numbers(adds) && Replay(h') == Replay(h + ToMemTable(m, adds))
  }

  /** One log: its batches go into memtables, which are stored on level 0, each as a table of
      its own. */
  method ReplayLog(step: CrcStep, m: Meaning, file: Bytes, paranoid: bool, st: Store, next: nat, maxSequence: nat,
                   cut: nat -> bool, fileSize: seq<Entry> -> nat, ghost h: seq<Entry>, ghost alone: bool, ghost bs: seq<Logged>, ghost first: nat)
    returns (st': Store, next': nat, maxSequence': nat, ghost h': seq<Entry>)
    requires Clean(h, st, next, alone) && LogOf(step, file, bs) && Follows(bs, first)
    requires |h| <= first && first + |AllAdds(bs)| < MAX_SEQUENCE
    ensures Clean(h', st', next', alone) && next <= next'
    ensures var left := bs[..LeftOf(step, file, bs)];
            && ReplayedOver(m, h, AllAdds(left), h')
            && StoredAs(st, next, Chunks(cut, ToMemTable(m, AllAdds(left))), fileSize, st', next')
            && |h'| == Max(|h|, MaxSequence(left)) <= first + |AllAdds(bs)|
            && maxSequence' == Max(maxSequence, MaxSequence(left))
  {
    hide CoreOk, AloneOk, LoggedOk, Rep, Complete, LogFrom, Follows, AllAdds, MaxSequence, AllLogged, ToMemTable, Edited, Replay,
      LogOf, StoredAs, Chunks;
    var status, adds, last := RecoverLogFile(step, file, paranoid, bs);
    maxSequence' := Max(maxSequence, last);
    LogIsOf(step, file, bs);
    ghost var k := LeftOf(step, file, bs);
    ghost var left := bs[..k];
    FollowsFront(bs, first, k);
    ghost var padded := h;
    if left == [] {
      NoAdds();
    } else {
      LastSequence(left, first);
      padded := Skip(h, st, next, |h|, first);
    }
    LeftNumbered(m, left, first, adds);
    var es := ToMemTable(m, adds);
    assert left == [] ==> es == [];
    st', next' := InsertAll(padded, st, next, |h|, es, cut, fileSize);
    h' := padded + es;
    StoredGrows(st, next, Chunks(cut, es), fileSize, st', next');
    SameReplay(padded, h, es);
    CoreLater(h', st', next', None, [], |h|, |h'|, true);
  }

  lemma LogIsOf(step: CrcStep, file: Bytes, bs: seq<Logged>)
    requires LogOf(step, file, bs)
    ensures AllLogged(bs)
  {
  }

  lemma LeftNumbered(m: Meaning, left: seq<Logged>, first: nat, adds: seq<Add>)
    requires Follows(left, first) && adds == AllAdds(left) && first + |adds| <= MAX_SEQUENCE
    ensures Numbers(adds)
    ensures forall i :: 0 <= i < |adds| ==> ToMemTable(m, adds)[i].key.sequence == first + i + 1
    ensures left == [] ==> adds == []
  {
    AddsNumbered(left, first);
    hide AllAdds;
    assert left == [] ==> adds == [] by { NoAdds(); }
  }

  lemma NoAdds()
    ensures AllAdds([]) == [] && MaxSequence([]) == 0
  {
  }

  // ------------------------------------------------------------------ all logs

  /** The batches a log was written with, and the last sequence number before them. */
  datatype LogPart = LogPart(batches: seq<Logged>, first: nat)

  ghost function EndOf(p: LogPart): nat {
    p.first + |AllAdds(p.batches)|
  }

  /** The files are what is left of logs that were written one after the other. */
  ghost predicate PartsOk(step: CrcStep, logs: seq<Bytes>, parts: seq<LogPart>, start: nat) {
    && |parts| == |logs|
    && (forall i :: 0 <= i < |logs| ==>
          && LogOf(step, logs[i], parts[i].batches) && Follows(parts[i].batches, parts[i].first)
          && start <= parts[i].first && EndOf(parts[i]) < MAX_SEQUENCE)
    && (forall i, j :: 0 <= i < j < |logs| ==> EndOf(parts[i]) <= parts[j].first)
  }

  /** The batches wholly inside the first n files. */
  ghost function LeftIn(step: CrcStep, logs: seq<Bytes>, parts: seq<LogPart>, n: nat): seq<Logged>
    requires n <= |logs| == |parts| && forall i :: 0 <= i < |logs| ==> LogOf(step, logs[i], parts[i].batches)
  {
    if n == 0 then [] else
    LeftIn(step, logs, parts, n - 1) + parts[n - 1].batches[..LeftOf(step, logs[n - 1], parts[n - 1].batches)]
  }

  lemma {:induction false} MaxSequenceConcat(a: seq<Logged>, b: seq<Logged>)
    ensures MaxSequence(a + b) == Max(MaxSequence(a), MaxSequence(b))
    decreases |b|
  {
    if b == [] {
      assert a + b == a;
    } else {
      var n := |b| - 1;
      MaxSequenceConcat(a, b[..n]);
      assert (a + b)[..|a + b| - 1] == a + b[..n] && (a + b)[|a + b| - 1] == b[n];
    }
  }

  lemma ReplayedNothing(m: Meaning, h: seq<Entry>)
    ensures ReplayedOver(m, h, [], h)
  {
    assert h + ToMemTable(m, []) == h;
  }

  lemma ReplayedMore(m: Meaning, h: seq<Entry>, a: seq<Add>, g: seq<Entry>, b: seq<Add>, h': seq<Entry>)
    requires ReplayedOver(m, h, a, g) && ReplayedOver(m, g, b, h')
    ensures ReplayedOver(m, h, a + b, h')
  {
    hide Replay, ToMemTable, Numbers;
    NumbersJoin(m, a, b);
    SameReplay(g, h + ToMemTable(m, a), ToMemTable(m, b));
    assert h + ToMemTable(m, a) + ToMemTable(m, b) == h + ToMemTable(m, a + b);
  }

  /** The loop over the logs in DBImpl::Recover. */
  method ReplayLogs(step: CrcStep, m: Meaning, logs: seq<Bytes>, paranoid: bool, st: Store, next: nat, cut: nat -> bool,
                    fileSize: seq<Entry> -> nat, ghost h: seq<Entry>, ghost alone: bool, ghost parts: seq<LogPart>)
    returns (st': Store, next': nat, maxSequence: nat, ghost h': seq<Entry>)
    requires Clean(h, st, next, alone) && PartsOk(step, logs, parts, |h|) && |h| < MAX_SEQUENCE
    ensures Clean(h', st', next', alone) && next <= next' && |h'| < MAX_SEQUENCE
    ensures var left := LeftIn(step, logs, parts, |logs|);
            ReplayedOver(m, h, AllAdds(left), h') && maxSequence == MaxSequence(left) && |h'| == Max(|h|, maxSequence)
  {
    hide Clean, ReplayedOver, LogOf, Follows, AllAdds, MaxSequence, LeftOf;
    st', next', maxSequence, h' := st, next, 0, h;
    NoAdds();
    ReplayedNothing(m, h);
    for i := 0 to |logs|
      invariant Clean(h', st', next', alone) && next <= next' && |h'| < MAX_SEQUENCE
      invariant ReplayedOver(m, h, AllAdds(LeftIn(step, logs, parts, i)), h')
      invariant maxSequence == MaxSequence(LeftIn(step, logs, parts, i)) && |h'| == Max(|h|, maxSequence)
      invariant forall j :: i <= j < |logs| ==> |h'| <= parts[j].first
    {
      ghost var bs, before := parts[i].batches, h';
      st', next', maxSequence, h' :=
        ReplayLog(step, m, logs[i], paranoid, st', next', maxSequence, cut, fileSize, h', alone, bs, parts[i].first);
      LogIsOf(step, logs[i], bs);
      ghost var front, left := LeftIn(step, logs, parts, i), bs[..LeftOf(step, logs[i], bs)];
      AllAddsConcat(front, left);
      MaxSequenceConcat(front, left);
      ReplayedMore(m, h, AllAdds(front), before, AllAdds(left), h');
    }
  }

  // ------------------------------------------------------------------ what a crash leaves

  /** What is left of the log files, the older first. */
  function LogsLeft(d: Disk, nOld: nat, n: nat): seq<Bytes>
    requires n <= |d.open.dest| && (d.closed.Some? ==> nOld <= |d.closed.value.dest|)
  {
    (if d.closed.Some? then [d.closed.value.dest[..nOld]] else []) + [d.open.dest[..n]]
  }

  /** The records that are left of both logs. */
  ghost function RecordsLeft(step: CrcStep, d: Disk, logged: seq<Logged>, sp: Spread, nOld: nat, n: nat): seq<Logged>
    requires FilesOk(step, d, logged, sp)
  {
    logged[sp.from..sp.from + LeftOld(step, d, logged, sp, nOld)] + logged[sp.base..sp.base + LeftOpen(step, d, logged, sp, n)]
  }

  lemma SliceFollows(logged: seq<Logged>, a: nat, b: nat)
    requires Contiguous(logged) && a <= b <= |logged|
    ensures Follows(logged[a..b], Count(logged, a)) && Count(logged, a) + |AllAdds(logged[a..b])| == Count(logged, b)
  {
    hide AllAdds;
    forall i | 0 <= i <= b - a
      ensures Count(logged, a + i) == Count(logged, a) + |AllAdds(logged[a..b][..i])|
    {
      assert logged[a..b][..i] == logged[a..a + i];
      AddsBetween(logged, a, a + i);
    }
    assert logged[a..b][..b - a] == logged[a..b];
  }

  ghost function PartFrom(logged: seq<Logged>, a: nat, b: nat): LogPart
    requires a <= b <= |logged|
  {
    LogPart(logged[a..b], Count(logged, a))
  }

  /** The logs as parts of all that was logged. */
  ghost function PartsLeft(d: Disk, logged: seq<Logged>, sp: Spread): seq<LogPart>
    requires SpreadOk(sp, logged)
  {
    (if d.closed.Some? then [PartFrom(logged, sp.from, sp.base)] else []) + [PartFrom(logged, sp.base, |logged|)]
  }

  /** What is left of the logs is what a crash may leave of them. */
  lemma LogsAreParts(step: CrcStep, d: Disk, logged: seq<Logged>, sp: Spread, nOld: nat, n: nat)
    requires FilesOk(step, d, logged, sp) && MayLeave(d, nOld, n) && Contiguous(logged) && |AllAdds(logged)| < MAX_SEQUENCE
    ensures SpreadOk(sp, logged)
    ensures PartsOk(step, LogsLeft(d, nOld, n), PartsLeft(d, logged, sp), Count(logged, sp.from))
  {
    hide DiskOk, LogOf, Follows, AllAdds, Contiguous, LeftOld, LeftOpen;
    LeftIsReplayed(step, d, logged, sp, nOld, n);
    assert logged[sp.base..|logged|] == logged[sp.base..];
    SliceFollows(logged, sp.from, sp.base);
    SliceFollows(logged, sp.base, |logged|);
    assert logged[..|logged|] == logged;
  }

  lemma LeftInOne(step: CrcStep, logs: seq<Bytes>, parts: seq<LogPart>)
    requires 0 < |logs| == |parts| && forall i :: 0 <= i < |logs| ==> LogOf(step, logs[i], parts[i].batches)
    ensures AllLogged(parts[0].batches)
    ensures LeftIn(step, logs, parts, 1) == parts[0].batches[..LeftOf(step, logs[0], parts[0].batches)]
  {
    hide LeftOf, LoggedOk, LogFrom, Rep;
    assert LeftIn(step, logs, parts, 0) == [];
  }

  lemma LeftInTwo(step: CrcStep, logs: seq<Bytes>, parts: seq<LogPart>)
    requires 1 < |logs| == |parts| && forall i :: 0 <= i < |logs| ==> LogOf(step, logs[i], parts[i].batches)
    ensures AllLogged(parts[0].batches) && AllLogged(parts[1].batches)
    ensures LeftIn(step, logs, parts, 2) == parts[0].batches[..LeftOf(step, logs[0], parts[0].batches)] +
                                            parts[1].batches[..LeftOf(step, logs[1], parts[1].batches)]
  {
    hide LeftOf, LoggedOk, LogFrom, Rep;
    LeftInOne(step, logs, parts);
  }

  lemma SurvivorsLeft(step: CrcStep, file: Bytes, logged: seq<Logged>, a: nat, b: nat)
    requires a <= b <= |logged| && AllLogged(logged[a..b])
    ensures var k := Survivors(step, logged, a, b, |file|); logged[a..b][..LeftOf(step, file, logged[a..b])] == logged[a..a + k]
  {
    hide Complete, AllLogged;
  }

  /** The batches wholly inside the files are the records left. */
  lemma LeftAreRecords(step: CrcStep, d: Disk, logged: seq<Logged>, sp: Spread, nOld: nat, n: nat)
    requires FilesOk(step, d, logged, sp) && MayLeave(d, nOld, n)
    requires PartsOk(step, LogsLeft(d, nOld, n), PartsLeft(d, logged, sp), Count(logged, sp.from))
    ensures LeftIn(step, LogsLeft(d, nOld, n), PartsLeft(d, logged, sp), |LogsLeft(d, nOld, n)|) ==
            RecordsLeft(step, d, logged, sp, nOld, n)
  {
    hide DiskOk, LogOf, Follows, AllAdds, LeftOf, Count, AllLogged, EndOf, LeftIn, Survivors;
    var logs, parts := LogsLeft(d, nOld, n), PartsLeft(d, logged, sp);
    assert logged[sp.base..|logged|] == logged[sp.base..];
    LeftInOne(step, logs, parts);
    if d.closed.Some? {
      LeftInTwo(step, logs, parts);
      SurvivorsLeft(step, logs[0], logged, sp.from, sp.base);
      SurvivorsLeft(step, logs[1], logged, sp.base, |logged|);
    } else {
      SurvivorsLeft(step, logs[0], logged, sp.base, |logged|);
      assert logged[sp.from..sp.from + LeftOld(step, d, logged, sp, nOld)] == [];
    }
  }

  // ------------------------------------------------------------------ the tables

  lemma PastStored(h: seq<Entry>, t: Tables, v: Version, flushed: nat)
    requires flushed <= |h| && AllWritten(h[..flushed], LevelsEntries(t, v))
    ensures VersionWritten(h[..flushed], t, v)
  {
    forall l, f | 0 <= l < |v| && f in v[l]
      ensures RunWritten(h[..flushed], Run(t, f))
    {
      forall e | e in Run(t, f)
        ensures Written(h[..flushed], e)
      {
        assert e in LevelsEntries(t, v);
      }
    }
  }

  lemma EmptyMemTables(h: seq<Entry>, t: Tables, v: Version, next: nat)
    requires Numbered(h) && VersionOk(t, v) && VersionWritten(h, t, v) && NumbersBelow(t, v, next)
    ensures InOrderStore(h, Store([], None, t, v), next)
  {
    hide VersionOk, VersionWritten, NumbersBelow;
  }

  lemma FilesBelow(t: Tables, v: Version, next: nat)
    requires VersionOk(t, v) && forall k :: k in t ==> k < next
    ensures NumbersBelow(t, v, next)
  {
    VersionFiles(t, v);
    hide VersionOk, Sorted;
    forall l, f | 0 <= l < |v| && f in v[l]
      ensures f.number < next
    {
      assert FileOk(t, f);
      InTable(t, f);
    }
  }

  lemma InTable(t: Tables, f: FileMeta)
    requires Run(t, f) != []
    ensures f.number in t
  {
  }

  /** The tables a crash leaves. */
  lemma TablesAreClean(h: seq<Entry>, st: Store, next: nat, flushed: nat, switched: nat, alone: bool, next': nat)
    requires InOrderStore(h, st, next) && PlacesOk(h, st, flushed, switched) && TablesRead(h, st.tables, st.version, flushed)
    requires (alone ==> AloneOk(st.version, None)) && forall k :: k in st.tables ==> k < next'
    ensures Clean(h[..flushed], Store([], None, st.tables, st.version), next', alone)
  {
    hide *;
    var kept := Store([], None, st.tables, st.version);
    StoreParts(h, st, next);
    StoreNumbered(h, st, next);
    TablesPast(h, st, next, flushed, switched);
    PlacesCount(h, st, flushed, switched);
    PastStored(h, st.tables, st.version, flushed);
    FilesBelow(st.tables, st.version, next');
    NumberedFront(h, flushed);
    EmptyMemTables(h[..flushed], st.tables, st.version, next');
    OnlyLevels(st.tables, st.version);
    CleanBy(h, kept, next', flushed, alone);
  }

  lemma PlacesCount(h: seq<Entry>, st: Store, flushed: nat, switched: nat)
    requires PlacesOk(h, st, flushed, switched)
    ensures flushed <= switched <= |h|
  {
  }

  lemma NumberedFront(h: seq<Entry>, n: nat)
    requires Numbered(h) && n <= |h|
    ensures Numbered(h[..n])
  {
  }

  lemma OnlyLevels(t: Tables, v: Version)
    ensures Store([], None, t, v).Entries() == LevelsEntries(t, v)
  {
    hide LevelsEntries;
  }

  lemma CleanBy(h: seq<Entry>, st: Store, next: nat, flushed: nat, alone: bool)
    requires flushed <= |h| && InOrderStore(h[..flushed], st, next) && TablesRead(h, st.tables, st.version, flushed)
    requires st.Entries() == LevelsEntries(st.tables, st.version) && st.mem == [] && st.imm.None?
    requires alone ==> AloneOk(st.version, None)
    ensures Clean(h[..flushed], st, next, alone)
  {
    hide InOrderStore, ReadsHistory, LevelsEntries, Store.Entries, AloneOk;
  }

  // ------------------------------------------------------------------ opening

  /** The seeks every file of a version starts with. */
  ghost predicate SeeksStart(v: Version, seeks: map<nat, int>) {
    forall l, f :: 0 <= l < |v| && f in v[l] ==> f.number in seeks && seeks[f.number] == Db.InitialSeeks(f.size)
  }

  method StartSeeks(v: Version) returns (seeks: map<nat, int>)
    requires UniqueNumbers(v)
    ensures SeeksStart(v, seeks)
  {
    seeks := map[];
    for l := 0 to |v|
      invariant SeeksStart(v[..l], seeks)
    {
      for i := 0 to |v[l]|
        invariant SeeksStart(v[..l], seeks)
        invariant forall j :: 0 <= j < i ==> v[l][j].number in seeks && seeks[v[l][j].number] == Db.InitialSeeks(v[l][j].size)
      {
        var f := v[l][i];
        assert f in v[l];
        seeks := seeks[f.number := Db.InitialSeeks(f.size)];
      }
    }
    assert v[..|v|] == v;
  }

  /** The manifest leads to the current version; the last sequence number noted in it is
      past what is stored, and the next file number past the tables. */
  ghost predicate Manifested(vs: Manifest.VersionSet, db: Db.DB, flushed: nat)
    reads vs, vs.manifest, db
  {
    && vs.Valid() && vs.manifest != null && vs.current == db.version
    && var n := Manifest.NotedBy(vs.edits);
       && n.nextFileNumber.Some? && n.lastSequence.Some?
       && flushed <= n.lastSequence.value <= db.lastSequence
       && forall k :: k in db.tables ==> k < n.nextFileNumber.value
  }

  /** What a crash leaves of a queue and a database. */
  ghost predicate Crashed(m: Meaning, q: WriteQueue, db: Db.DB, vs: Manifest.VersionSet, nOld: nat, n: nat)
    reads q, q.log, db, vs, vs.manifest
  {
    && InStep(m, q, db) && Durably(q, db) && Manifested(vs, db, |q.stored|) && MayLeave(q.TheDisk(), nOld, n)
  }

  lemma StoredFirst(m: Meaning, stored: seq<Add>, all: seq<Add>, writes: seq<Entry>)
    requires stored <= all && |stored| <= |writes| <= |all| && Numbers(all[..|writes|]) && writes == ToMemTable(m, all[..|writes|])
    ensures Numbers(stored) && writes[..|stored|] == ToMemTable(m, stored)
  {
    NumbersFront(m, stored, all[..|writes|]);
  }

  /** What was stored is in the first writes. */
  lemma StoredWrites(m: Meaning, q: WriteQueue, db: Db.DB)
    requires InStep(m, q, db)
    ensures |q.stored| <= |db.writes| && Numbers(q.stored) && db.writes[..|q.stored|] == ToMemTable(m, q.stored)
  {
    hide WriteQueue.Valid, Db.DB.Valid, OpsOf, AddsOf, ToMemTable, Numbers, AllAdds;
    q.OnceInOrder();
    Runs.Counted(db);
    var all := AddsOf(1, OpsOf(q.arrived));
    assert q.stored <= q.Inserted();
    OpsGrow(q.arrived, q.acked);
    AddsWithin(OpsOf(q.arrived[..q.acked]), OpsOf(q.arrived));
    AddsLength(OpsOf(q.arrived[..q.acked]));
    StoredFirst(m, q.stored, all, db.writes);
  }

  lemma QueueFiles(q: WriteQueue)
    requires q.Valid()
    ensures FilesOk(q.step, q.TheDisk(), q.logged, q.spread) && SpreadOk(q.spread, q.logged)
    ensures Contiguous(q.logged) && |AllAdds(q.logged)| < MAX_SEQUENCE
    ensures q.stored == AllAdds(q.logged[..q.spread.from])
  {
    hide DiskOk, SyncOk, Eager, LogWriter.Ok, OpsOf, AddsOf, AllAdds, Contiguous, LeadingOk, MemOk, AllLogged, Count;
    q.OnceInOrder();
    AddsLength(OpsOf(q.arrived));
    q.QueueParts();
  }

  /** What is recovered: what is stored, and the operations of the records left. */
  lemma RecoveredIs(step: CrcStep, d: Disk, stored: seq<Add>, logged: seq<Logged>, sp: Spread, nOld: nat, n: nat)
    requires FilesOk(step, d, logged, sp)
    ensures Recovered(step, d, stored, logged, sp, nOld, n) == stored + AllAdds(RecordsLeft(step, d, logged, sp, nOld, n))
  {
    hide DiskOk, AllAdds, LeftOld, LeftOpen;
    var a := logged[sp.from..sp.from + LeftOld(step, d, logged, sp, nOld)];
    var b := logged[sp.base..sp.base + LeftOpen(step, d, logged, sp, n)];
    AllAddsConcat(a, b);
    assert stored + AllAdds(a) + AllAdds(b) == stored + (AllAdds(a) + AllAdds(b));
  }

  /** The parts of a crash fit together. */
  lemma CrashParts(m: Meaning, q: WriteQueue, db: Db.DB, vs: Manifest.VersionSet, nOld: nat, n: nat, next: nat)
    requires Crashed(m, q, db, vs, nOld, n) && Manifest.NotedBy(vs.edits).nextFileNumber.value <= next
    ensures FilesOk(q.step, q.TheDisk(), q.logged, q.spread) && SpreadOk(q.spread, q.logged)
    ensures |q.stored| <= |db.writes| == db.lastSequence < MAX_SEQUENCE
    ensures Numbers(q.stored) && db.writes[..|q.stored|] == ToMemTable(m, q.stored)
    ensures Clean(db.writes[..|q.stored|], Store([], None, db.tables, db.version), next, db.alone)
    ensures UniqueNumbers(db.version)
    ensures var d, parts := q.TheDisk(), PartsLeft(q.TheDisk(), q.logged, q.spread);
            && PartsOk(q.step, LogsLeft(d, nOld, n), parts, |q.stored|)
            && LeftIn(q.step, LogsLeft(d, nOld, n), parts, |LogsLeft(d, nOld, n)|) ==
               RecordsLeft(q.step, d, q.logged, q.spread, nOld, n)
  {
    hide WriteQueue.Valid, Db.DB.Valid, Manifest.VersionSet.Valid, FilesOk, Numbers, ToMemTable, AllAdds, Clean, InOrderStore, AloneOk,
      PlacesOk, TablesRead, PartsOk, LeftIn, RecordsLeft, LogsLeft, PartsLeft, RunningOk, Holds, Contiguous, Manifest.NotedBy;
    QueueFiles(q);
    StoredWrites(m, q, db);
    LastIsSmall(db);
    InsideDb(db);
    TogetherPlaces(m, q.arrived, q.acked, q.stored, q.imm, db.writes, db.TheStore());
    AloneLater(db.version, db.running);
    TablesAreClean(db.writes, db.TheStore(), db.nextFileNumber, |q.stored|, |q.stored + q.Imm()|, db.alone, next);
    StoreParts(db.writes, db.TheStore(), db.nextFileNumber);
    LogsAreParts(q.step, q.TheDisk(), q.logged, q.spread, nOld, n);
    LeftAreRecords(q.step, q.TheDisk(), q.logged, q.spread, nOld, n);
  }

  lemma LastIsSmall(db: Db.DB)
    requires db.Valid()
    ensures |db.writes| == db.lastSequence < MAX_SEQUENCE
  {
  }

  /** A compaction that was running is gone. */
  lemma AloneLater(v: Version, running: Option<Running>)
    ensures AloneOk(v, running) ==> AloneOk(v, None)
  {
  }

  lemma CrashedManifest(m: Meaning, q: WriteQueue, db: Db.DB, vs: Manifest.VersionSet, nOld: nat, n: nat)
    requires Crashed(m, q, db, vs, nOld, n)
    ensures q.Valid() && db.Valid() && MayLeave(q.TheDisk(), nOld, n)
    ensures vs.Valid() && vs.manifest != null && vs.current == db.version && |vs.compactPointer| == NUM_LEVELS
    ensures var noted := Manifest.NotedBy(vs.edits);
            && noted.nextFileNumber.Some? && noted.lastSequence.Some?
            && |q.stored| <= noted.lastSequence.value <= db.lastSequence
  {
    hide WriteQueue.Valid, Db.DB.Valid, Together, Durably, Manifest.NotedBy, Manifest.FilesStored, Manifest.Recorded, MayLeave;
    hide LogWriter.Ok;
  }

  /** The sequence numbers up to the last one are taken. */
  lemma CleanSkip(h: seq<Entry>, st: Store, next: nat, alone: bool, last: nat) returns (h': seq<Entry>)
    requires Clean(h, st, next, alone) && |h| <= last < MAX_SEQUENCE
    ensures |h'| == last && Replay(h') == Replay(h) && UniqueNumbers(st.version) && (alone ==> AloneOk(st.version, None))
    ensures CoreOk(h', Store([], None, st.tables, st.version), next, None, [], |h'|, true)
  {
    hide CoreOk, AloneOk, UniqueNumbers, InOrderStore;
    h' := Skip(h, st, next, |h|, last);
    CoreParts(h, st, next, None, [], |h|, true);
    StoreParts(h, st, next);
    CoreLater(h', st, next, None, [], |h|, |h'|, true);
    assert st == Store([], None, st.tables, st.version);
  }

  lemma RecoveredShown(m: Meaning, stored: seq<Add>, left: seq<Add>, h: seq<Entry>, h': seq<Entry>, writes: seq<Entry>)
    requires Numbers(stored) && h == ToMemTable(m, stored) && ReplayedOver(m, h, left, h') && Replay(writes) == Replay(h')
    ensures Numbers(stored + left)
    ensures Runs.Describes(Runs.Plain(|writes|, Replay(ToMemTable(m, stored + left)), []), writes, [])
  {
    hide Numbers, ToMemTable, Replay;
    NumbersJoin(m, stored, left);
  }

  /** DB::Open after a crash that kept at least the synced bytes of each log: the database
      shows the map left by the operations that were stored or whose records are left, in
      that order.  They hold the whole batch of every sync writer that had returned, and are
      a prefix of all writes if the logs leave no gap. */
  method Open(step: CrcStep, options: Options, fileSize: seq<Entry> -> nat, m: Meaning, tables: Tables, vs: Manifest.VersionSet,
              logs: seq<Bytes>, paranoid: bool, cut: nat -> bool, ghost q: WriteQueue, ghost db: Db.DB, ghost nOld: nat, ghost n: nat)
    returns (impl: Db.DB)
    requires Crashed(m, q, db, vs, nOld, n)
    requires step == q.step && tables == db.tables && logs == LogsLeft(q.TheDisk(), nOld, n)
    ensures FilesOk(step, q.TheDisk(), q.logged, q.spread) && SpreadOk(q.spread, q.logged) && q.acked <= |q.arrived|
    ensures fresh(impl) && impl.Valid() && impl.safe && impl.alone == db.alone
    ensures impl.compactPointer == vs.compactPointer && SeeksStart(impl.version, impl.allowedSeeks)
    ensures var r := Recovered(step, q.TheDisk(), q.stored, q.logged, q.spread, nOld, n);
            && Numbers(r)
            && Runs.Describes(Runs.Plain(impl.lastSequence, Replay(ToMemTable(m, r)), []), impl.writes, impl.snapshots)
            && (forall i :: 0 <= i < q.acked && q.arrived[i].sync && q.arrived[i].batch.Some? ==> HasWrite(r, q.arrived, i))
            && (NoGap(q.logged, q.spread) ==> r <= AddsOf(1, OpsOf(q.arrived)))
    ensures impl.lastSequence ==
            Max(Manifest.NotedBy(vs.edits).lastSequence.value,
                MaxSequence(RecordsLeft(step, q.TheDisk(), q.logged, q.spread, nOld, n)))
  {
    hide *;
    CrashedManifest(m, q, db, vs, nOld, n);
    var status, r := vs.Reopen();
    var next, noted := r.value.nextFileNumber, r.value.lastSequence;
    CrashParts(m, q, db, vs, nOld, n, next);
    ghost var h := db.writes[..|q.stored|];
    var st, maxSequence;
    ghost var h';
    st, next, maxSequence, h' := ReplayLogs(step, m, logs, paranoid, Store([], None, tables, r.value.version), next, cut,
                                            fileSize, h, db.alone, PartsLeft(q.TheDisk(), q.logged, q.spread));
    var last := if noted < maxSequence then maxSequence else noted;
    MaxIs(|h|, maxSequence);
    MaxIs(noted, maxSequence);
    ghost var writes := CleanSkip(h', st, next, db.alone, last);
    var seeks := StartSeeks(st.version);
    impl := new Db.DB.Opened(options, fileSize, st.tables, st.version, next, last, r.value.pointers, seeks, writes, db.alone);
    RecoveredIs(step, q.TheDisk(), q.stored, q.logged, q.spread, nOld, n);
    RecoveredShown(m, q.stored, AllAdds(RecordsLeft(step, q.TheDisk(), q.logged, q.spread, nOld, n)), h, h', writes);
    q.CrashKeepsSynced(nOld, n);
    q.PrefixInEveryCrash();
  }
}
