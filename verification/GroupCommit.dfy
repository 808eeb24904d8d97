/** Group commit (DBImpl::Write): threads queue up, the front writer makes room, logs and
    applies the batches of several of them, and acknowledges them in order.  Each method is
    one section of DBImpl::Write between taking and releasing the lock, one step a leader
    takes while the lock is released, or the flush of a memtable in the background. */
module GroupCommit {
  import opened Keys
  import opened Coding
  import opened Logs
  import opened Batches
  import opened Recovery

  /** A call of DBImpl::Write; a call without a batch only asks for a memtable switch. */
  datatype Writer = Writer(batch: Option<seq<BatchOp>>, sync: bool)

  function BatchOf(w: Writer): seq<BatchOp> {
    if w.batch.Some? then w.batch.value else []
  }

  /** The operations of the writers, in order. */
  function OpsOf(ws: seq<Writer>): seq<BatchOp> {
    if ws == [] then [] else OpsOf(ws[..|ws| - 1]) + BatchOf(ws[|ws| - 1])
  }

  lemma {:induction false} OpsConcat(a: seq<Writer>, b: seq<Writer>)
    ensures OpsOf(a + b) == OpsOf(a) + OpsOf(b)
    decreases |b|
  {
    if b == [] {
      assert a + b == a;
    } else {
      var n := |b| - 1;
      OpsConcat(a, b[..n]);
      assert (a + b)[..|a + b| - 1] == a + b[..n] && (a + b)[|a + b| - 1] == b[n];
    }
  }

  lemma AddsConcat(first: nat, a: seq<BatchOp>, b: seq<BatchOp>)
    ensures AddsOf(first, a + b) == AddsOf(first, a) + AddsOf(first + |a|, b)
  {
  }

  // ------------------------------------------------------------------ building a group

  function ByteSize(ops: seq<BatchOp>): nat {
    BATCH_HEADER + |EncodeOps(ops)|
  }

  /** A group may hold a megabyte, or 128 KB more than a small first batch. */
  function MaxGroupSize(first: seq<BatchOp>): nat {
    if ByteSize(first) <= 0x2_0000 then ByteSize(first) + 0x2_0000 else 0x10_0000
  }

  function TotalSize(ws: seq<Writer>): nat {
    if ws == [] then 0 else
    TotalSize(ws[..|ws| - 1]) + if ws[|ws| - 1].batch.Some? then ByteSize(ws[|ws| - 1].batch.value) else 0
  }

  /** The group may not go past this writer: it wants a sync and the leader does not, or
      its batch makes the group too big. */
  predicate Stops(ws: seq<Writer>, n: nat)
    requires 0 < n < |ws|
  {
    || (ws[n].sync && !ws[0].sync)
    || (ws[n].batch.Some? && TotalSize(ws[..n + 1]) > MaxGroupSize(BatchOf(ws[0])))
  }

  lemma {:induction false} CountBounded(ws: seq<Writer>)
    ensures |OpsOf(ws)| <= TotalSize(ws)
  {
    if ws != [] {
      CountBounded(ws[..|ws| - 1]);
      EncodedAtLeast(BatchOf(ws[|ws| - 1]));
    }
  }

  lemma {:induction false} EncodedAtLeast(ops: seq<BatchOp>)
    ensures |ops| <= |EncodeOps(ops)|
  {
    hide EncodeOp;
    if ops != [] {
      EncodedAtLeast(ops[..|ops| - 1]);
    }
  }

  /** BuildBatchGroup: the longest run of writers from the front that nothing stops, and
      their operations. */
  method BuildBatchGroup(writers: seq<Writer>) returns (count: nat, ops: seq<BatchOp>)
    requires writers != [] && writers[0].batch.Some?
    ensures 0 < count <= |writers| && ops == OpsOf(writers[..count])
    ensures forall i :: 0 < i < count ==> !Stops(writers, i)
    ensures count < |writers| ==> Stops(writers, count)
  {
    hide ByteSize, EncodeOps, OpsOf, TotalSize;
    var first := writers[0];
    var size := ByteSize(first.batch.value);
    var maxSize := 0x10_0000;
    if size <= 0x2_0000 {
      maxSize := size + 0x2_0000;
    }
    ops, count := first.batch.value, 1;
    assert writers[..0] == [];
    GroupNext(writers, 0);
    GroupNone();
    while count < |writers|
      invariant 0 < count <= |writers| && ops == OpsOf(writers[..count])
      invariant size == TotalSize(writers[..count])
      invariant forall i :: 0 < i < count ==> !Stops(writers, i)
    {
      var w := writers[count];
      GroupNext(writers, count);
      if w.sync && !first.sync {
        break;
      }
      if w.batch.Some? {
        size := size + ByteSize(w.batch.value);
        if size > maxSize {
          break;
        }
        ops := ops + w.batch.value;
      }
      count := count + 1;
    }
  }

  lemma GroupNext(ws: seq<Writer>, n: nat)
    requires n < |ws|
    ensures OpsOf(ws[..n + 1]) == OpsOf(ws[..n]) + BatchOf(ws[n])
    ensures TotalSize(ws[..n + 1]) == TotalSize(ws[..n]) + if ws[n].batch.Some? then ByteSize(ws[n].batch.value) else 0
  {
    assert ws[..n + 1][..n] == ws[..n];
  }

  lemma GroupNone()
    ensures OpsOf([]) == [] && TotalSize([]) == 0
  {
  }

  predicate WriterFits(w: Writer) {
    OpsFit(BatchOf(w))
  }

  ghost predicate WritersFit(ws: seq<Writer>) {
    forall i :: 0 <= i < |ws| ==> WriterFits(ws[i])
  }

  lemma FitJoin(a: seq<BatchOp>, b: seq<BatchOp>)
    requires OpsFit(a) && OpsFit(b) && |a| + |b| < MAX_COUNT
    ensures OpsFit(a + b)
  {
    hide OpFits;
  }

  /** The operations of a group fit into one batch. */
  lemma {:induction false} GroupFits(ws: seq<Writer>, n: nat)
    requires WritersFit(ws) && 0 < n <= |ws| && forall i :: 0 < i < n ==> !Stops(ws, i)
    ensures OpsFit(OpsOf(ws[..n]))
    decreases n
  {
    hide OpsFit, TotalSize, MaxGroupSize;
    var w := ws[n - 1];
    assert WriterFits(w);
    assert ws[..n][..n - 1] == ws[..n - 1];
    assert OpsOf(ws[..n]) == OpsOf(ws[..n - 1]) + BatchOf(w);
    if n == 1 {
      assert OpsOf([]) + BatchOf(w) == BatchOf(w);
    } else {
      GroupFits(ws, n - 1);
      if w.batch.Some? {
        assert !Stops(ws, n - 1);
        CountBounded(ws[..n]);
        GroupSmall(BatchOf(ws[0]));
        FitJoin(OpsOf(ws[..n - 1]), BatchOf(w));
      } else {
        assert OpsOf(ws[..n - 1]) + [] == OpsOf(ws[..n - 1]);
      }
    }
  }

  lemma GroupSmall(first: seq<BatchOp>)
    ensures MaxGroupSize(first) < MAX_COUNT
  {
  }

  // ------------------------------------------------------------------ the invariant

  /** What the leader still has to do: append to the log, sync it, insert into the memtable. */
  datatype Stage = Appending | Syncing | Inserting

  /** The front writer's work on the first `count` writers. */
  datatype Leading = Leading(count: nat, sequence: nat, ops: seq<BatchOp>, stage: Stage, inserted: nat)

  /** The operations of the leader that are in the log, and in the memtable. */
  function InLog(leading: Option<Leading>): seq<BatchOp> {
    if leading.Some? && !leading.value.stage.Appending? then leading.value.ops else []
  }

  function InMem(leading: Option<Leading>): seq<BatchOp> {
    if leading.Some? && leading.value.inserted <= |leading.value.ops| then leading.value.ops[..leading.value.inserted] else []
  }

  /** The leader works on a group from the front of the queue. */
  ghost predicate LeadingOk(l: Leading, writers: seq<Writer>, lastSequence: nat) {
    && 0 < l.count <= |writers| && l.ops == OpsOf(writers[..l.count])
    && writers[0].batch.Some?
    && (forall i :: 0 <= i < l.count && writers[i].sync ==> writers[0].sync)
    && OpsFit(l.ops) && l.sequence == lastSequence + 1
    && l.inserted <= |l.ops| && (!l.stage.Inserting? ==> l.inserted == 0)
    && (l.stage.Syncing? ==> writers[0].sync)
  }

  /** The memtable holds the operations done and those the leader has inserted, under
      consecutive sequence numbers from 1. */
  ghost predicate MemOk(done: seq<BatchOp>, leading: Option<Leading>, mem: seq<Add>) {
    mem == AddsOf(1, done + InMem(leading))
  }

  /** The log holds the operations done and those the leader has logged, each once and
      under consecutive sequence numbers from 1. */
  ghost predicate LogOk(done: seq<BatchOp>, leading: Option<Leading>, logged: seq<Logged>) {
    AllLogged(logged) && Contiguous(logged) && AllAdds(logged) == AddsOf(1, done + InLog(leading))
  }

  /** `arrived` are all writers so far in queue order, and the first `acked` of them are
      done; the others wait. */
  ghost predicate PlaceOk(arrived: seq<Writer>, acked: nat, writers: seq<Writer>) {
    && acked <= |arrived| && arrived[acked..] == writers
    && WritersFit(writers) && |OpsOf(arrived)| < MAX_SEQUENCE
  }

  ghost predicate QueueOk(arrived: seq<Writer>, acked: nat, writers: seq<Writer>, lastSequence: nat,
                          leading: Option<Leading>, mem: seq<Add>, logged: seq<Logged>)
  {
    && PlaceOk(arrived, acked, writers)
    && var done := OpsOf(arrived[..acked]);
       && lastSequence == |done|
       && (leading.Some? ==> LeadingOk(leading.value, writers, lastSequence))
       && MemOk(done, leading, mem)
       && LogOk(done, leading, logged)
  }

  lemma PlaceArrive(arrived: seq<Writer>, acked: nat, writers: seq<Writer>, w: Writer)
    requires PlaceOk(arrived, acked, writers) && WriterFits(w) && |OpsOf(arrived)| + |BatchOf(w)| < MAX_SEQUENCE
    ensures PlaceOk(arrived + [w], acked, writers + [w]) && (arrived + [w])[..acked] == arrived[..acked]
  {
    hide WriterFits, OpsOf;
    assert (arrived + [w])[acked..] == writers + [w];
    OpsConcat(arrived, [w]);
    OneWriter(w);
  }

  lemma OneWriter(w: Writer)
    ensures OpsOf([w]) == BatchOf(w)
  {
    assert [w][..0] == [];
    assert [] + BatchOf(w) == BatchOf(w);
  }

  lemma QueueArrive(arrived: seq<Writer>, acked: nat, writers: seq<Writer>, lastSequence: nat,
                    leading: Option<Leading>, mem: seq<Add>, logged: seq<Logged>, w: Writer)
    requires QueueOk(arrived, acked, writers, lastSequence, leading, mem, logged)
    requires WriterFits(w) && |OpsOf(arrived)| + |BatchOf(w)| < MAX_SEQUENCE
    ensures QueueOk(arrived + [w], acked, writers + [w], lastSequence, leading, mem, logged)
  {
    hide PlaceOk, MemOk, LogOk, OpsOf, WriterFits, OpsFit;
    PlaceArrive(arrived, acked, writers, w);
    if leading.Some? {
      assert (writers + [w])[..leading.value.count] == writers[..leading.value.count];
    }
  }

  /** The writers done and those of a group are the writers done next. */
  lemma PlaceNext(arrived: seq<Writer>, acked: nat, writers: seq<Writer>, n: nat)
    requires PlaceOk(arrived, acked, writers) && n <= |writers|
    ensures acked + n <= |arrived| && OpsOf(arrived[..acked + n]) == OpsOf(arrived[..acked]) + OpsOf(writers[..n])
    ensures PlaceOk(arrived, acked + n, writers[n..])
    ensures |OpsOf(arrived[..acked + n])| < MAX_SEQUENCE
  {
    hide WriterFits, OpsOf;
    assert arrived[..acked + n] == arrived[..acked] + writers[..n];
    assert arrived[acked + n..] == writers[n..];
    OpsConcat(arrived[..acked], writers[..n]);
    OpsConcat(arrived[..acked + n], arrived[acked + n..]);
    assert arrived[..acked + n] + arrived[acked + n..] == arrived;
  }

  lemma LogAppended(done: seq<BatchOp>, l: Leading, logged: seq<Logged>, stage: Stage)
    requires LogOk(done, Some(l), logged) && l.stage.Appending? && !stage.Appending?
    requires l.sequence == |done| + 1 && OpsFit(l.ops) && |done| + |l.ops| < MAX_SEQUENCE
    ensures LoggedOk(Logged(l.sequence, l.ops))
    ensures LogOk(done, Some(l.(stage := stage)), logged + [Logged(l.sequence, l.ops)])
  {
    hide AddsOf, AllAdds, OpsFit, AllLogged, Contiguous;
    assert done + [] == done;
    AddsConcat(1, done, l.ops);
    LoggedMore(logged, Logged(l.sequence, l.ops));
  }

  lemma LoggedMore(logged: seq<Logged>, b: Logged)
    requires AllLogged(logged) && Contiguous(logged) && LoggedOk(b) && b.sequence == |AllAdds(logged)| + 1
    ensures AllLogged(logged + [b]) && Contiguous(logged + [b])
    ensures AllAdds(logged + [b]) == AllAdds(logged) + AddsOf(b.sequence, b.ops)
  {
    var more := logged + [b];
    assert more[..|logged|] == logged;
    hide AllAdds, LoggedOk;
    forall i | 0 <= i < |more|
      ensures more[i].sequence == |AllAdds(more[..i])| + 1
    {
      assert more[..i] == logged[..i];
    }
  }

  /** A record is logged for the whole group. */
  lemma QueueAppend(arrived: seq<Writer>, acked: nat, writers: seq<Writer>, lastSequence: nat,
                    l: Leading, mem: seq<Add>, logged: seq<Logged>, stage: Stage)
    requires QueueOk(arrived, acked, writers, lastSequence, Some(l), mem, logged)
    requires l.stage.Appending? && !stage.Appending? && (stage.Syncing? ==> writers[0].sync)
    ensures LoggedOk(Logged(l.sequence, l.ops))
    ensures QueueOk(arrived, acked, writers, lastSequence, Some(l.(stage := stage)), mem, logged + [Logged(l.sequence, l.ops)])
  {
    hide PlaceOk, LogOk, OpsOf, OpsFit, LoggedOk, AddsOf;
    PlaceNext(arrived, acked, writers, l.count);
    LogAppended(OpsOf(arrived[..acked]), l, logged, stage);
  }

  lemma MemInserted(done: seq<BatchOp>, l: Leading, mem: seq<Add>)
    requires MemOk(done, Some(l), mem) && l.inserted < |l.ops| && l.sequence == |done| + 1
    ensures MemOk(done, Some(l.(inserted := l.inserted + 1)), mem + [Add(l.sequence + l.inserted, l.ops[l.inserted])])
  {
    assert l.ops[..l.inserted + 1] == l.ops[..l.inserted] + [l.ops[l.inserted]];
    assert done + l.ops[..l.inserted + 1] == done + l.ops[..l.inserted] + [l.ops[l.inserted]];
    AddsConcat(1, done + l.ops[..l.inserted], [l.ops[l.inserted]]);
  }

  /** One operation of the group goes to the memtable. */
  lemma QueueInsert(arrived: seq<Writer>, acked: nat, writers: seq<Writer>, lastSequence: nat,
                    l: Leading, mem: seq<Add>, logged: seq<Logged>)
    requires QueueOk(arrived, acked, writers, lastSequence, Some(l), mem, logged)
    requires l.stage.Inserting? && l.inserted < |l.ops|
    ensures QueueOk(arrived, acked, writers, lastSequence, Some(l.(inserted := l.inserted + 1)),
                    mem + [Add(l.sequence + l.inserted, l.ops[l.inserted])], logged)
  {
    hide MemOk, OpsOf, OpsFit, AddsOf, AllAdds, AllLogged, Contiguous, WritersFit;
    MemInserted(OpsOf(arrived[..acked]), l, mem);
  }

  /** The group is done: its writers are acknowledged, and readers see its operations. */
  lemma QueueFinish(arrived: seq<Writer>, acked: nat, writers: seq<Writer>, lastSequence: nat,
                    l: Leading, mem: seq<Add>, logged: seq<Logged>)
    requires QueueOk(arrived, acked, writers, lastSequence, Some(l), mem, logged)
    requires l.stage.Inserting? && l.inserted == |l.ops|
    ensures QueueOk(arrived, acked + l.count, writers[l.count..], lastSequence + |l.ops|, None, mem, logged)
  {
    hide PlaceOk, OpsOf, OpsFit, AddsOf, AllAdds, AllLogged, Contiguous;
    PlaceNext(arrived, acked, writers, l.count);
    assert l.ops[..|l.ops|] == l.ops;
    var done := OpsOf(arrived[..acked]);
    assert done + l.ops + [] == done + l.ops;
  }

  lemma QueueSkip(arrived: seq<Writer>, acked: nat, writers: seq<Writer>, lastSequence: nat, mem: seq<Add>, logged: seq<Logged>)
    requires QueueOk(arrived, acked, writers, lastSequence, None, mem, logged)
    requires writers != [] && writers[0].batch.None?
    ensures QueueOk(arrived, acked + 1, writers[1..], lastSequence, None, mem, logged)
  {
    hide PlaceOk, MemOk, LogOk, OpsOf;
    PlaceNext(arrived, acked, writers, 1);
    assert writers[..1] == [writers[0]];
    OneWriter(writers[0]);
    assert OpsOf(arrived[..acked]) + [] == OpsOf(arrived[..acked]);
  }

  lemma QueueLead(arrived: seq<Writer>, acked: nat, writers: seq<Writer>, lastSequence: nat, mem: seq<Add>, logged: seq<Logged>,
                  count: nat, ops: seq<BatchOp>)
    requires QueueOk(arrived, acked, writers, lastSequence, None, mem, logged)
    requires 0 < count <= |writers| && writers[0].batch.Some? && ops == OpsOf(writers[..count])
    requires forall i :: 0 < i < count ==> !Stops(writers, i)
    ensures QueueOk(arrived, acked, writers, lastSequence, Some(Leading(count, lastSequence + 1, ops, Appending, 0)), mem, logged)
  {
    hide PlaceOk, OpsOf, OpsFit, AddsOf, AllAdds, AllLogged, Contiguous, Stops;
    PlaceFits(arrived, acked, writers);
    GroupFits(writers, count);
    NoneStops(writers, count);
  }

  lemma PlaceFits(arrived: seq<Writer>, acked: nat, writers: seq<Writer>)
    requires PlaceOk(arrived, acked, writers)
    ensures WritersFit(writers)
  {
  }

  /** A sync writer is never taken along by a leader that does not sync. */
  lemma NoneStops(writers: seq<Writer>, count: nat)
    requires count <= |writers| && forall i :: 0 < i < count ==> !Stops(writers, i)
    ensures forall i :: 0 <= i < count && writers[i].sync ==> writers[0].sync
  {
    hide TotalSize, MaxGroupSize;
    forall i | 0 <= i < count && writers[i].sync
      ensures writers[0].sync
    {
      assert i == 0 || !Stops(writers, i);
    }
  }

  // ------------------------------------------------------------------ what is on disk

  /** The bytes of the log are those of its records, and the first `synced` records make
      up the first `syncedBytes` bytes. */
  ghost predicate BytesOk(step: CrcStep, dest: Bytes, records: seq<Bytes>, synced: nat, syncedBytes: nat) {
    && dest == LogFrom(step, records, 0)
    && synced <= |records| && syncedBytes <= |dest|
    && syncedBytes == |LogFrom(step, records[..synced], 0)|
  }

  ghost predicate DiskOk(step: CrcStep, dest: Bytes, logged: seq<Logged>, synced: nat, syncedBytes: nat) {
    AllLogged(logged) && BytesOk(step, dest, Reps(logged), synced, syncedBytes)
  }

  lemma BytesAppend(step: CrcStep, dest: Bytes, records: seq<Bytes>, synced: nat, syncedBytes: nat, r: Bytes)
    requires BytesOk(step, dest, records, synced, syncedBytes)
    ensures BytesOk(step, dest + Fragments(step, r, |dest|, true), records + [r], synced, syncedBytes)
  {
    hide LogFrom, Fragments;
    LogAppend(step, records, 0, r);
    assert (records + [r])[..synced] == records[..synced];
  }

  lemma DiskAppend(step: CrcStep, dest: Bytes, logged: seq<Logged>, synced: nat, syncedBytes: nat, b: Logged, r: Bytes)
    requires DiskOk(step, dest, logged, synced, syncedBytes)
    requires LoggedOk(b) && r == Rep(b.sequence, b.ops)
    ensures DiskOk(step, dest + Fragments(step, r, |dest|, true), logged + [b], synced, syncedBytes)
  {
    RepsMore(logged, b);
    hide BytesOk, LogFrom, Fragments, LoggedOk, Rep, Reps, AllLogged;
    BytesAppend(step, dest, Reps(logged), synced, syncedBytes, r);
  }

  lemma RepsMore(logged: seq<Logged>, b: Logged)
    requires AllLogged(logged) && LoggedOk(b)
    ensures AllLogged(logged + [b]) && Reps(logged + [b]) == Reps(logged) + [Rep(b.sequence, b.ops)]
  {
    hide LoggedOk, Rep;
  }

  lemma DiskSync(step: CrcStep, dest: Bytes, logged: seq<Logged>, synced: nat, syncedBytes: nat)
    requires DiskOk(step, dest, logged, synced, syncedBytes)
    ensures DiskOk(step, dest, logged, |logged|, |dest|)
  {
    assert Reps(logged)[..|logged|] == Reps(logged);
  }

  // ------------------------------------------------------------------ two logs

  /** A log that is no longer written, and how much of it is known to be on disk. */
  datatype LogFile = LogFile(dest: Bytes, syncedBytes: nat)

  /** The logs: the open one, and that of the immutable memtable. */
  datatype Disk = Disk(open: LogFile, closed: Option<LogFile>)

  /** Where the records are: the tables hold the first `from`, the log of the immutable
      memtable those up to `base`, and the open log the rest.  The first `oldSynced` of the
      old log and the first `synced` of the open one are known to be on disk. */
  datatype Spread = Spread(from: nat, base: nat, oldSynced: nat, synced: nat)

  ghost predicate SpreadOk(sp: Spread, logged: seq<Logged>) {
    sp.from + sp.oldSynced <= sp.base && sp.base + sp.synced <= |logged|
  }

  ghost predicate FilesOk(step: CrcStep, d: Disk, logged: seq<Logged>, sp: Spread) {
    && SpreadOk(sp, logged)
    && DiskOk(step, d.open.dest, logged[sp.base..], sp.synced, d.open.syncedBytes)
    && (d.closed.None? ==> sp.from == sp.base)
    && (d.closed.Some? ==> DiskOk(step, d.closed.value.dest, logged[sp.from..sp.base], sp.oldSynced, d.closed.value.syncedBytes))
  }

  lemma FilesAppend(step: CrcStep, d: Disk, logged: seq<Logged>, sp: Spread, b: Logged, r: Bytes)
    requires FilesOk(step, d, logged, sp) && LoggedOk(b) && r == Rep(b.sequence, b.ops)
    ensures var dest := d.open.dest + Fragments(step, r, |d.open.dest|, true);
            FilesOk(step, Disk(LogFile(dest, d.open.syncedBytes), d.closed), logged + [b], sp)
  {
    hide DiskOk, Fragments, Rep, LoggedOk;
    assert (logged + [b])[sp.base..] == logged[sp.base..] + [b];
    assert (logged + [b])[sp.from..sp.base] == logged[sp.from..sp.base];
    DiskAppend(step, d.open.dest, logged[sp.base..], sp.synced, d.open.syncedBytes, b, r);
  }

  lemma FilesSync(step: CrcStep, d: Disk, logged: seq<Logged>, sp: Spread)
    requires FilesOk(step, d, logged, sp)
    ensures FilesOk(step, Disk(LogFile(d.open.dest, |d.open.dest|), d.closed), logged, sp.(synced := |logged| - sp.base))
  {
    hide DiskOk;
    DiskSync(step, d.open.dest, logged[sp.base..], sp.synced, d.open.syncedBytes);
  }

  lemma SpreadStays(sp: Spread, logged: seq<Logged>, b: Logged)
    requires SpreadOk(sp, logged)
    ensures SpreadOk(sp, logged + [b])
  {
  }

  /** The open log becomes the old one, as it is, and an empty one is opened. */
  lemma FilesSwitch(step: CrcStep, d: Disk, logged: seq<Logged>, sp: Spread)
    requires FilesOk(step, d, logged, sp) && d.closed.None?
    ensures FilesOk(step, Disk(LogFile([], 0), Some(d.open)), logged, Spread(sp.from, |logged|, sp.synced, 0))
    ensures sp.from == sp.base && SpreadOk(Spread(sp.from, |logged|, sp.synced, 0), logged)
  {
    assert logged[sp.from..|logged|] == logged[sp.base..];
    assert logged[|logged|..] == [];
    hide DiskOk;
    DiskEmpty(step);
  }

  lemma FilesFlushed(step: CrcStep, d: Disk, logged: seq<Logged>, sp: Spread)
    requires FilesOk(step, d, logged, sp)
    ensures FilesOk(step, Disk(d.open, None), logged, Spread(sp.base, sp.base, 0, sp.synced))
    ensures SpreadOk(Spread(sp.base, sp.base, 0, sp.synced), logged)
  {
    hide DiskOk;
  }

  lemma DiskEmpty(step: CrcStep)
    ensures DiskOk(step, [], [], 0, 0)
  {
  }

  /** Which entries are where: the tables, the immutable memtable and the memtable hold
      what the records before, in and after the old log say. */
  ghost predicate MemsOk(stored: seq<Add>, imm: seq<Add>, logged: seq<Logged>, sp: Spread, lastSequence: nat) {
    && SpreadOk(sp, logged)
    && stored == AllAdds(logged[..sp.from]) && stored + imm == AllAdds(logged[..sp.base])
    && |AllAdds(logged[..sp.base])| <= lastSequence
  }

  lemma MemsAppend(stored: seq<Add>, imm: seq<Add>, logged: seq<Logged>, sp: Spread, lastSequence: nat, b: Logged)
    requires MemsOk(stored, imm, logged, sp, lastSequence)
    ensures MemsOk(stored, imm, logged + [b], sp, lastSequence)
  {
    assert (logged + [b])[..sp.from] == logged[..sp.from] && (logged + [b])[..sp.base] == logged[..sp.base];
  }

  /** Between groups the memtables and the tables hold all that was logged. */
  lemma MemsSwitch(arrived: seq<Writer>, acked: nat, writers: seq<Writer>, lastSequence: nat, stored: seq<Add>, mem: seq<Add>,
                   logged: seq<Logged>, sp: Spread)
    requires QueueOk(arrived, acked, writers, lastSequence, None, stored + [] + mem, logged)
    requires MemsOk(stored, [], logged, sp, lastSequence) && sp.from == sp.base
    ensures MemsOk(stored, mem, logged, Spread(sp.from, |logged|, sp.synced, 0), lastSequence)
  {
    assert acked <= |arrived| && sp.base + sp.synced <= |logged|;
    hide AllAdds, OpsOf, PlaceOk, AllLogged, Contiguous, AddsOf;
    var done := OpsOf(arrived[..acked]);
    assert logged[..|logged|] == logged && stored + [] + mem == stored + mem;
    assert InMem(None) == [] && InLog(None) == [];
    assert AllAdds(logged) == stored + mem;
    AddsLength(done + []);
  }

  lemma MemsFlushed(stored: seq<Add>, imm: seq<Add>, logged: seq<Logged>, sp: Spread, lastSequence: nat)
    requires MemsOk(stored, imm, logged, sp, lastSequence)
    ensures MemsOk(stored + imm, [], logged, Spread(sp.base, sp.base, 0, sp.synced), lastSequence)
  {
    assert stored + imm + [] == stored + imm;
  }

  lemma AddsLength(ops: seq<BatchOp>)
    ensures |AddsOf(1, ops)| == |ops|
  {
  }

  // ------------------------------------------------------------------ what a sync writer can rely on

  /** How many operations the first k records hold. */
  ghost function Count(logged: seq<Logged>, k: nat): nat
    requires k <= |logged|
  {
    |AllAdds(logged[..k])|
  }

  lemma CountGrows(logged: seq<Logged>, logged': seq<Logged>, j: nat, k: nat)
    requires logged <= logged' && j <= k <= |logged'| && j <= |logged|
    ensures Count(logged, j) <= Count(logged', k)
    ensures k == j ==> Count(logged, j) == Count(logged', k)
  {
    AddsPrefix(logged'[..k], j);
    assert logged'[..k][..j] == logged[..j];
    assert k == j ==> logged'[..k] == logged[..j];
  }

  /** The operations of a writer are in the tables or in records that are known to be on disk. */
  ghost predicate OnDisk(arrived: seq<Writer>, i: nat, logged: seq<Logged>, sp: Spread)
    requires i < |arrived| && SpreadOk(sp, logged)
  {
    || |OpsOf(arrived[..i + 1])| <= Count(logged, sp.from + sp.oldSynced)
    || (Count(logged, sp.base) <= |OpsOf(arrived[..i])| && |OpsOf(arrived[..i + 1])| <= Count(logged, sp.base + sp.synced))
  }

  /** Every acknowledged sync writer's operations are on disk. */
  ghost predicate SyncOk(arrived: seq<Writer>, acked: nat, logged: seq<Logged>, sp: Spread) {
    && acked <= |arrived| && SpreadOk(sp, logged)
    && forall i :: 0 <= i < acked && arrived[i].sync && arrived[i].batch.Some? ==> OnDisk(arrived, i, logged, sp)
  }

  /** The disk keeps what it has: the open log grows, or all that was on disk is in the
      tables and the old log. */
  ghost predicate Keeps(sp: Spread, sp': Spread) {
    || (sp'.base == sp.base && sp.from + sp.oldSynced <= sp'.from + sp'.oldSynced && sp.synced <= sp'.synced)
    || sp.base + sp.synced <= sp'.from + sp'.oldSynced
  }

  lemma SyncMore(arrived: seq<Writer>, acked: nat, logged: seq<Logged>, sp: Spread,
                 arrived': seq<Writer>, logged': seq<Logged>, sp': Spread)
    requires SyncOk(arrived, acked, logged, sp) && arrived <= arrived' && logged <= logged'
    requires SpreadOk(sp', logged') && Keeps(sp, sp')
    ensures SyncOk(arrived', acked, logged', sp')
  {
    hide OpsOf, Count;
    if sp'.base == sp.base && sp.from + sp.oldSynced <= sp'.from + sp'.oldSynced && sp.synced <= sp'.synced {
      CountGrows(logged, logged', sp.from + sp.oldSynced, sp'.from + sp'.oldSynced);
      CountGrows(logged, logged', sp.base, sp'.base);
      CountGrows(logged, logged', sp.base + sp.synced, sp'.base + sp'.synced);
    } else {
      CountGrows(logged, logged', sp.from + sp.oldSynced, sp'.from + sp'.oldSynced);
      CountGrows(logged, logged', sp.base + sp.synced, sp'.from + sp'.oldSynced);
    }
    forall i | 0 <= i < acked && arrived'[i].sync && arrived'[i].batch.Some?
      ensures OnDisk(arrived', i, logged', sp')
    {
      assert OnDisk(arrived, i, logged, sp);
      assert arrived'[..i + 1] == arrived[..i + 1] && arrived'[..i] == arrived[..i];
    }
  }

  /** Acknowledging a group whose sync writers are covered. */
  lemma SyncFinish(arrived: seq<Writer>, acked: nat, writers: seq<Writer>, count: nat, logged: seq<Logged>, sp: Spread, sync: bool)
    requires SyncOk(arrived, acked, logged, sp) && arrived[acked..] == writers && count <= |writers|
    requires forall i :: 0 <= i < count && writers[i].sync && writers[i].batch.Some? ==> sync
    requires sync ==>
               && sp.base + sp.synced == |logged| && Count(logged, sp.base) <= |OpsOf(arrived[..acked])|
               && |OpsOf(arrived[..acked + count])| <= |AllAdds(logged)|
    ensures SyncOk(arrived, acked + count, logged, sp)
  {
    hide AllAdds, OpsOf;
    assert logged[..|logged|] == logged;
    forall i | 0 <= i < acked + count && arrived[i].sync && arrived[i].batch.Some?
      ensures OnDisk(arrived, i, logged, sp)
    {
      if i >= acked {
        assert writers[i - acked] == arrived[i];
        OpsGrow(arrived[..acked + count], i + 1);
        assert arrived[..acked + count][..i + 1] == arrived[..i + 1];
        OpsGrow(arrived[..i], acked);
        assert arrived[..i][..acked] == arrived[..acked];
      }
    }
  }

  lemma {:induction false} OpsGrow(ws: seq<Writer>, n: nat)
    requires n <= |ws|
    ensures OpsOf(ws[..n]) <= OpsOf(ws)
  {
    OpsConcat(ws[..n], ws[n..]);
    assert ws[..n] + ws[n..] == ws;
  }

  // ------------------------------------------------------------------ a crash

  /** How many of the records from `a` to `b`, which a file holds, are wholly in its first n bytes. */
  ghost function Survivors(step: CrcStep, logged: seq<Logged>, a: nat, b: nat, n: nat): (k: nat)
    requires a <= b <= |logged| && AllLogged(logged[a..b])
    ensures k <= b - a
  {
    Complete(step, Reps(logged[a..b]), 0, n)
  }

  /** All that is synced survives. */
  lemma SyncedSurvive(step: CrcStep, dest: Bytes, logged: seq<Logged>, a: nat, b: nat, synced: nat, syncedBytes: nat, n: nat)
    requires a <= b <= |logged| && DiskOk(step, dest, logged[a..b], synced, syncedBytes)
    requires syncedBytes <= n <= |dest|
    ensures synced <= Survivors(step, logged, a, b, n)
    ensures LogOf(step, dest[..n], logged[a..b])
  {
    hide Complete, LogFrom, LoggedOk, Rep;
    CompleteIff(step, Reps(logged[a..b]), 0, n, synced);
  }

  lemma AllAddsLast(bs: seq<Logged>)
    requires bs != []
    ensures AllAdds(bs) == AllAdds(bs[..|bs| - 1]) + AddsOf(bs[|bs| - 1].sequence, bs[|bs| - 1].ops)
  {
  }

  lemma {:induction false} AllAddsConcat(a: seq<Logged>, b: seq<Logged>)
    ensures AllAdds(a + b) == AllAdds(a) + AllAdds(b)
    decreases |b|
  {
    hide AddsOf;
    if b == [] {
      assert a + b == a;
    } else {
      var n := |b| - 1;
      AllAddsConcat(a, b[..n]);
      AllAddsLast(b);
      AllAddsLast(a + b);
      hide AllAdds;
      assert (a + b)[..|a + b| - 1] == a + b[..n] && (a + b)[|a + b| - 1] == b[n];
    }
  }

  /** The operations of the records from `a` to `b` are those from one count to the other. */
  lemma AddsBetween(logged: seq<Logged>, a: nat, b: nat)
    requires a <= b <= |logged|
    ensures Count(logged, a) <= Count(logged, b) <= |AllAdds(logged)|
    ensures AllAdds(logged[a..b]) == AllAdds(logged)[Count(logged, a)..Count(logged, b)]
  {
    hide AllAdds;
    assert logged[..b] == logged[..a] + logged[a..b] && logged == logged[..b] + logged[b..];
    AllAddsConcat(logged[..a], logged[a..b]);
    AllAddsConcat(logged[..b], logged[b..]);
  }

  /** Two pieces of a numbered sequence, put together, are a prefix of it exactly when
      there is nothing between them or nothing in the second. */
  lemma PrefixIffNoGap(p: seq<Add>, a: nat, b: nat, c: nat)
    requires a <= b <= c <= |p| && forall i :: 0 <= i < |p| ==> p[i].sequence == i + 1
    ensures p[..a] + p[b..c] <= p <==> a == b || b == c
  {
    var r := p[..a] + p[b..c];
    if a == b {
      assert r == p[..c];
    } else if b == c {
      assert r == p[..a];
    } else {
      assert r[a] == p[b] && p[b].sequence != p[a].sequence;
    }
  }

  /** A crash leaves at least the synced bytes of each log. */
  ghost predicate MayLeave(d: Disk, nOld: nat, n: nat) {
    && d.open.syncedBytes <= n <= |d.open.dest|
    && (d.closed.Some? ==> d.closed.value.syncedBytes <= nOld <= |d.closed.value.dest|)
  }

  /** How many records of the old log and of the open one a crash leaves. */
  ghost function LeftOld(step: CrcStep, d: Disk, logged: seq<Logged>, sp: Spread, nOld: nat): (k: nat)
    requires FilesOk(step, d, logged, sp)
    ensures sp.from + k <= sp.base <= |logged|
  {
    if d.closed.Some? then Survivors(step, logged, sp.from, sp.base, nOld) else 0
  }

  ghost function LeftOpen(step: CrcStep, d: Disk, logged: seq<Logged>, sp: Spread, n: nat): (k: nat)
    requires FilesOk(step, d, logged, sp)
    ensures sp.from <= sp.base && sp.base + k <= |logged|
  {
    assert logged[sp.base..|logged|] == logged[sp.base..];
    Survivors(step, logged, sp.base, |logged|, n)
  }

  /** What the next DB::Open finds in the tables and replays from the logs. */
  ghost function Recovered(step: CrcStep, d: Disk, stored: seq<Add>, logged: seq<Logged>, sp: Spread, nOld: nat, n: nat): seq<Add>
    requires FilesOk(step, d, logged, sp)
  {
    stored + AllAdds(logged[sp.from..sp.from + LeftOld(step, d, logged, sp, nOld)])
           + AllAdds(logged[sp.base..sp.base + LeftOpen(step, d, logged, sp, n)])
  }

  /** DB::Open replays the files that are left. */
  lemma LeftIsReplayed(step: CrcStep, d: Disk, logged: seq<Logged>, sp: Spread, nOld: nat, n: nat)
    requires FilesOk(step, d, logged, sp) && MayLeave(d, nOld, n)
    ensures LogOf(step, d.open.dest[..n], logged[sp.base..])
    ensures d.closed.Some? ==> LogOf(step, d.closed.value.dest[..nOld], logged[sp.from..sp.base])
    ensures sp.oldSynced <= LeftOld(step, d, logged, sp, nOld) && sp.synced <= LeftOpen(step, d, logged, sp, n)
  {
    hide Survivors, DiskOk, LogOf;
    assert logged[sp.base..|logged|] == logged[sp.base..];
    SyncedSurvive(step, d.open.dest, logged, sp.base, |logged|, sp.synced, d.open.syncedBytes, n);
    if d.closed.Some? {
      SyncedSurvive(step, d.closed.value.dest, logged, sp.from, sp.base, sp.oldSynced, d.closed.value.syncedBytes, nOld);
    }
  }

  /** The entries are two pieces of all that was logged: those of the first records, and
      those of the first of the open log. */
  ghost predicate Pieces(r: seq<Add>, logged: seq<Logged>, a: nat, base: nat, b: nat)
    requires a <= base <= b <= |logged|
  {
    && Count(logged, a) <= Count(logged, base) <= Count(logged, b) <= |AllAdds(logged)|
    && r == AllAdds(logged)[..Count(logged, a)] + AllAdds(logged)[Count(logged, base)..Count(logged, b)]
  }

  lemma ArePieces(logged: seq<Logged>, from: nat, a: nat, base: nat, b: nat)
    requires from <= a <= base <= b <= |logged|
    ensures Pieces(AllAdds(logged[..from]) + AllAdds(logged[from..a]) + AllAdds(logged[base..b]), logged, a, base, b)
  {
    hide AllAdds;
    AllAddsConcat(logged[..from], logged[from..a]);
    assert logged[..from] + logged[from..a] == logged[..a];
    AllAddsFront(logged, a);
    AddsBetween(logged, a, base);
    AddsBetween(logged, base, b);
  }

  lemma RecoveredPieces(step: CrcStep, d: Disk, stored: seq<Add>, imm: seq<Add>, logged: seq<Logged>, sp: Spread, last: nat, nOld: nat, n: nat)
    requires FilesOk(step, d, logged, sp) && MemsOk(stored, imm, logged, sp, last)
    ensures Pieces(Recovered(step, d, stored, logged, sp, nOld, n), logged,
                   sp.from + LeftOld(step, d, logged, sp, nOld), sp.base, sp.base + LeftOpen(step, d, logged, sp, n))
  {
    hide FilesOk, AllAdds, LeftOld, LeftOpen, Pieces;
    ArePieces(logged, sp.from, sp.from + LeftOld(step, d, logged, sp, nOld), sp.base, sp.base + LeftOpen(step, d, logged, sp, n));
  }

  lemma AllAddsFront(logged: seq<Logged>, k: nat)
    requires k <= |logged|
    ensures Count(logged, k) <= |AllAdds(logged)| && AllAdds(logged[..k]) == AllAdds(logged)[..Count(logged, k)]
  {
    AddsPrefix(logged, k);
  }

  /** The recovered entries have all of a writer's batch. */
  ghost predicate HasWrite(r: seq<Add>, arrived: seq<Writer>, i: nat)
    requires i < |arrived|
  {
    forall x :: x in AddsOf(|OpsOf(arrived[..i])| + 1, BatchOf(arrived[i])) ==> x in r
  }

  /** A writer whose batch is on disk is recovered. */
  lemma OnDiskRecovered(r: seq<Add>, arrived: seq<Writer>, i: nat, logged: seq<Logged>, sp: Spread, a: nat, b: nat)
    requires i < |arrived| && SpreadOk(sp, logged) && OnDisk(arrived, i, logged, sp)
    requires AllAdds(logged) <= AddsOf(1, OpsOf(arrived))
    requires sp.from + sp.oldSynced <= a <= sp.base && sp.base + sp.synced <= b <= |logged|
    requires Pieces(r, logged, a, sp.base, b)
    ensures HasWrite(r, arrived, i)
  {
    hide *;
    forall x | x in AddsOf(|OpsOf(arrived[..i])| + 1, BatchOf(arrived[i]))
      ensures x in r
    {
      var m := WriterPlace(arrived, i, x);
      OnDiskPlace(arrived, i, logged, sp, a, b, m);
      PlaceRecovered(r, logged, a, sp.base, b, m);
      assert AllAdds(logged)[m] == AddsOf(1, OpsOf(arrived))[m];
    }
    HasWriteIf(r, arrived, i);
  }

  lemma OnDiskPlace(arrived: seq<Writer>, i: nat, logged: seq<Logged>, sp: Spread, a: nat, b: nat, m: nat)
    requires i < |arrived| && SpreadOk(sp, logged) && OnDisk(arrived, i, logged, sp)
    requires sp.from + sp.oldSynced <= a <= sp.base && sp.base + sp.synced <= b <= |logged|
    requires |OpsOf(arrived[..i])| <= m < |OpsOf(arrived[..i + 1])|
    ensures m < Count(logged, a) || Count(logged, sp.base) <= m < Count(logged, b)
  {
    hide OpsOf, Count;
    CountGrows(logged, logged, sp.from + sp.oldSynced, a);
    CountGrows(logged, logged, sp.base + sp.synced, b);
  }

  lemma PlaceRecovered(r: seq<Add>, logged: seq<Logged>, a: nat, base: nat, b: nat, m: nat)
    requires a <= base <= b <= |logged| && Pieces(r, logged, a, base, b)
    requires m < Count(logged, a) || Count(logged, base) <= m < Count(logged, b)
    ensures m < |AllAdds(logged)| && AllAdds(logged)[m] in r
  {
    hide AllAdds, Count;
    InPieces(r, AllAdds(logged), Count(logged, a), Count(logged, base), Count(logged, b), m);
  }

  lemma HasWriteIf(r: seq<Add>, arrived: seq<Writer>, i: nat)
    requires i < |arrived| && forall x :: x in AddsOf(|OpsOf(arrived[..i])| + 1, BatchOf(arrived[i])) ==> x in r
    ensures HasWrite(r, arrived, i)
  {
  }

  lemma InPieces(r: seq<Add>, all: seq<Add>, a: nat, b: nat, c: nat, m: nat)
    requires a <= b <= c <= |all| && r == all[..a] + all[b..c] && (m < a || b <= m < c)
    ensures all[m] in r
  {
    assert if m < a then r[m] == all[m] else r[a + (m - b)] == all[m];
  }

  lemma SyncedRecovered(step: CrcStep, d: Disk, stored: seq<Add>, imm: seq<Add>, logged: seq<Logged>, sp: Spread, last: nat,
                        arrived: seq<Writer>, acked: nat, nOld: nat, n: nat)
    requires FilesOk(step, d, logged, sp) && MemsOk(stored, imm, logged, sp, last) && SyncOk(arrived, acked, logged, sp)
    requires MayLeave(d, nOld, n) && AllAdds(logged) <= AddsOf(1, OpsOf(arrived))
    ensures acked <= |arrived|
    ensures forall i :: 0 <= i < acked && arrived[i].sync && arrived[i].batch.Some? ==>
              HasWrite(Recovered(step, d, stored, logged, sp, nOld, n), arrived, i)
  {
    hide *;
    LeftIsReplayed(step, d, logged, sp, nOld, n);
    RecoveredPieces(step, d, stored, imm, logged, sp, last, nOld, n);
    SyncBounds(arrived, acked, logged, sp);
    var a, b := sp.from + LeftOld(step, d, logged, sp, nOld), sp.base + LeftOpen(step, d, logged, sp, n);
    forall i | 0 <= i < acked && arrived[i].sync && arrived[i].batch.Some?
      ensures HasWrite(Recovered(step, d, stored, logged, sp, nOld, n), arrived, i)
    {
      SyncAt(arrived, acked, logged, sp, i);
      OnDiskRecovered(Recovered(step, d, stored, logged, sp, nOld, n), arrived, i, logged, sp, a, b);
    }
  }

  lemma SyncBounds(arrived: seq<Writer>, acked: nat, logged: seq<Logged>, sp: Spread)
    requires SyncOk(arrived, acked, logged, sp)
    ensures acked <= |arrived| && SpreadOk(sp, logged)
  {
  }

  lemma SyncAt(arrived: seq<Writer>, acked: nat, logged: seq<Logged>, sp: Spread, i: nat)
    requires SyncOk(arrived, acked, logged, sp) && i < acked <= |arrived| && arrived[i].sync && arrived[i].batch.Some?
    ensures SpreadOk(sp, logged) && OnDisk(arrived, i, logged, sp)
  {
  }

  lemma NumberedFromOne(ops: seq<BatchOp>)
    ensures forall i :: 0 <= i < |AddsOf(1, ops)| ==> AddsOf(1, ops)[i].sequence == i + 1
  {
  }

  /** What is recovered is a prefix of the writes, in queue order, exactly when the old log
      lost no operation or the open log kept none. */
  lemma PrefixIff(step: CrcStep, d: Disk, stored: seq<Add>, imm: seq<Add>, logged: seq<Logged>, sp: Spread, last: nat,
                  ops: seq<BatchOp>, nOld: nat, n: nat)
    requires FilesOk(step, d, logged, sp) && MemsOk(stored, imm, logged, sp, last) && AllAdds(logged) <= AddsOf(1, ops)
    ensures var j, k := LeftOld(step, d, logged, sp, nOld), LeftOpen(step, d, logged, sp, n);
            Recovered(step, d, stored, logged, sp, nOld, n) <= AddsOf(1, ops) <==>
            || Count(logged, sp.from + j) == Count(logged, sp.base)
            || Count(logged, sp.base) == Count(logged, sp.base + k)
  {
    hide FilesOk, MemsOk, AllAdds, Recovered, Count, LeftOld, LeftOpen;
    RecoveredPieces(step, d, stored, imm, logged, sp, last, nOld, n);
    var j, k := LeftOld(step, d, logged, sp, nOld), LeftOpen(step, d, logged, sp, n);
    var a, b, c := Count(logged, sp.from + j), Count(logged, sp.base), Count(logged, sp.base + k);
    assert AllAdds(logged)[..a] == AddsOf(1, ops)[..a] && AllAdds(logged)[b..c] == AddsOf(1, ops)[b..c];
    NumberedFromOne(ops);
    PrefixIffNoGap(AddsOf(1, ops), a, b, c);
  }

  /** The old log is on disk up to its last operation, or the open log holds no operation. */
  ghost predicate NoGap(logged: seq<Logged>, sp: Spread)
    requires SpreadOk(sp, logged)
  {
    || Count(logged, sp.from + sp.oldSynced) == Count(logged, sp.base)
    || Count(logged, sp.base) == Count(logged, |logged|)
  }

  lemma PrefixAlways(step: CrcStep, d: Disk, stored: seq<Add>, imm: seq<Add>, logged: seq<Logged>, sp: Spread, last: nat, ops: seq<BatchOp>)
    requires FilesOk(step, d, logged, sp) && MemsOk(stored, imm, logged, sp, last) && AllAdds(logged) <= AddsOf(1, ops)
    ensures SpreadOk(sp, logged)
    ensures (forall nOld, n :: MayLeave(d, nOld, n) ==> Recovered(step, d, stored, logged, sp, nOld, n) <= AddsOf(1, ops)) <==>
            NoGap(logged, sp)
  {
    hide *;
    FilesSpread(step, d, logged, sp);
    NoGapIs(logged, sp);
    var nOld, n := WorstCrash(step, d, logged, sp);
    PrefixIff(step, d, stored, imm, logged, sp, last, ops, nOld, n);
    if NoGap(logged, sp) {
      forall m, l | MayLeave(d, m, l)
        ensures Recovered(step, d, stored, logged, sp, m, l) <= AddsOf(1, ops)
      {
        LeftIsReplayed(step, d, logged, sp, m, l);
        NoGapStays(logged, sp, LeftOld(step, d, logged, sp, m), LeftOpen(step, d, logged, sp, l));
        PrefixIff(step, d, stored, imm, logged, sp, last, ops, m, l);
      }
    }
  }

  lemma NoGapIs(logged: seq<Logged>, sp: Spread)
    requires SpreadOk(sp, logged)
    ensures sp.from + sp.oldSynced <= sp.base <= |logged|
    ensures NoGap(logged, sp) <==>
            || Count(logged, sp.from + sp.oldSynced) == Count(logged, sp.base)
            || Count(logged, sp.base) == Count(logged, sp.base + (|logged| - sp.base))
  {
  }

  lemma NoGapStays(logged: seq<Logged>, sp: Spread, j: nat, k: nat)
    requires SpreadOk(sp, logged) && NoGap(logged, sp)
    requires sp.oldSynced <= j && sp.from + j <= sp.base && sp.base + k <= |logged|
    ensures || Count(logged, sp.from + j) == Count(logged, sp.base)
            || Count(logged, sp.base) == Count(logged, sp.base + k)
  {
    hide Count;
    CountGrows(logged, logged, sp.from + sp.oldSynced, sp.from + j);
    CountGrows(logged, logged, sp.from + j, sp.base);
    CountGrows(logged, logged, sp.base, sp.base + k);
    CountGrows(logged, logged, sp.base + k, |logged|);
  }

  lemma FilesSpread(step: CrcStep, d: Disk, logged: seq<Logged>, sp: Spread)
    requires FilesOk(step, d, logged, sp)
    ensures SpreadOk(sp, logged)
  {
  }

  /** The crash that leaves of the old log what is synced, and all of the open one. */
  lemma WorstCrash(step: CrcStep, d: Disk, logged: seq<Logged>, sp: Spread) returns (nOld: nat, n: nat)
    requires FilesOk(step, d, logged, sp)
    ensures MayLeave(d, nOld, n)
    ensures LeftOld(step, d, logged, sp, nOld) == sp.oldSynced && LeftOpen(step, d, logged, sp, n) == |logged| - sp.base
  {
    hide Survivors, DiskOk;
    nOld, n := if d.closed.Some? then d.closed.value.syncedBytes else 0, |d.open.dest|;
    assert logged[sp.base..|logged|] == logged[sp.base..];
    DiskBounds(step, d.open.dest, logged[sp.base..], sp.synced, d.open.syncedBytes);
    AllSurvive(step, d.open.dest, logged, sp.base, |logged|, sp.synced, d.open.syncedBytes);
    if d.closed.Some? {
      DiskBounds(step, d.closed.value.dest, logged[sp.from..sp.base], sp.oldSynced, d.closed.value.syncedBytes);
      OnlySyncedSurvive(step, d.closed.value.dest, logged, sp.from, sp.base, sp.oldSynced, d.closed.value.syncedBytes);
    }
  }

  lemma DiskBounds(step: CrcStep, dest: Bytes, logged: seq<Logged>, synced: nat, syncedBytes: nat)
    requires DiskOk(step, dest, logged, synced, syncedBytes)
    ensures syncedBytes <= |dest|
  {
  }

  lemma AllSurvive(step: CrcStep, dest: Bytes, logged: seq<Logged>, a: nat, b: nat, synced: nat, syncedBytes: nat)
    requires a <= b <= |logged| && DiskOk(step, dest, logged[a..b], synced, syncedBytes)
    ensures Survivors(step, logged, a, b, |dest|) == b - a
  {
    hide Complete, LogFrom, LoggedOk, Rep;
    var records := Reps(logged[a..b]);
    assert records[..b - a] == records;
    CompleteIff(step, records, 0, |dest|, b - a);
  }

  lemma LogGrows(step: CrcStep, records: seq<Bytes>, k: nat)
    requires k < |records|
    ensures |LogFrom(step, records[..k + 1], 0)| > |LogFrom(step, records[..k], 0)|
  {
    hide LogFrom, Fragments;
    assert records[..k + 1] == records[..k] + [records[k]];
    LogAppend(step, records[..k], 0, records[k]);
  }

  lemma OnlySyncedSurvive(step: CrcStep, dest: Bytes, logged: seq<Logged>, a: nat, b: nat, synced: nat, syncedBytes: nat)
    requires a <= b <= |logged| && DiskOk(step, dest, logged[a..b], synced, syncedBytes)
    ensures Survivors(step, logged, a, b, syncedBytes) == synced
  {
    hide Complete, LogFrom, LoggedOk, Rep;
    var records := Reps(logged[a..b]);
    CompleteIff(step, records, 0, syncedBytes, synced);
    if synced < |records| {
      CompleteIff(step, records, 0, syncedBytes, synced + 1);
      LogGrows(step, records, synced);
    }
  }

  /** Where an entry of a writer's batch stands among all. */
  lemma WriterPlace(arrived: seq<Writer>, i: nat, x: Add) returns (j: nat)
    requires i < |arrived| && x in AddsOf(|OpsOf(arrived[..i])| + 1, BatchOf(arrived[i]))
    ensures |OpsOf(arrived[..i])| <= j < |OpsOf(arrived[..i + 1])| && j < |AddsOf(1, OpsOf(arrived))|
    ensures AddsOf(1, OpsOf(arrived))[j] == x
  {
    hide OpsOf, BatchOf;
    var before, mine := OpsOf(arrived[..i]), BatchOf(arrived[i]);
    var m :| 0 <= m < |mine| && AddsOf(|before| + 1, mine)[m] == x;
    j := |before| + m;
    WriterOps(arrived, i);
    assert (before + mine)[j] == mine[m];
  }

  lemma WriterOps(arrived: seq<Writer>, i: nat)
    requires i < |arrived|
    ensures OpsOf(arrived[..i + 1]) == OpsOf(arrived[..i]) + BatchOf(arrived[i])
    ensures OpsOf(arrived[..i]) + BatchOf(arrived[i]) <= OpsOf(arrived)
  {
    hide OpsOf, BatchOf, TotalSize;
    GroupNext(arrived, i);
    OpsGrow(arrived, i + 1);
  }

  // ------------------------------------------------------------------ when every writer asks for a sync

  ghost predicate EverySync(ws: seq<Writer>) {
    forall i :: 0 <= i < |ws| && ws[i].batch.Some? ==> ws[i].sync
  }

  /** If every writer asks for a sync, the old log is on disk, and so is the open one
      but for the record of a leader that is about to sync it. */
  ghost predicate Eager(arrived: seq<Writer>, leading: Option<Leading>, logged: seq<Logged>, sp: Spread) {
    EverySync(arrived) ==>
      && sp.from + sp.oldSynced == sp.base
      && ((leading.Some? && leading.value.stage.Syncing?) || sp.base + sp.synced == |logged|)
  }

  lemma EagerArrive(arrived: seq<Writer>, leading: Option<Leading>, logged: seq<Logged>, sp: Spread, w: Writer)
    requires Eager(arrived, leading, logged, sp)
    ensures Eager(arrived + [w], leading, logged, sp)
  {
    if EverySync(arrived + [w]) {
      assert forall i :: 0 <= i < |arrived| ==> (arrived + [w])[i] == arrived[i];
    }
  }

  lemma EagerSwitch(arrived: seq<Writer>, logged: seq<Logged>, sp: Spread)
    requires Eager(arrived, None, logged, sp) && sp.from == sp.base
    ensures Eager(arrived, None, logged, Spread(sp.from, |logged|, sp.synced, 0))
  {
    hide EverySync;
  }

  lemma EagerFlush(arrived: seq<Writer>, leading: Option<Leading>, logged: seq<Logged>, sp: Spread)
    requires Eager(arrived, leading, logged, sp)
    ensures Eager(arrived, leading, logged, Spread(sp.base, sp.base, 0, sp.synced))
  {
    hide EverySync;
  }

  /** Other steps of a leader. */
  lemma EagerStage(arrived: seq<Writer>, leading: Option<Leading>, logged: seq<Logged>, sp: Spread, leading': Option<Leading>)
    requires Eager(arrived, leading, logged, sp) && !(leading.Some? && leading.value.stage.Syncing?)
    ensures Eager(arrived, leading', logged, sp)
  {
    hide EverySync;
  }

  lemma EagerAppend(arrived: seq<Writer>, acked: nat, writers: seq<Writer>, l: Leading, logged: seq<Logged>, sp: Spread, b: Logged)
    requires Eager(arrived, Some(l), logged, sp) && acked < |arrived| && arrived[acked..] == writers && writers[0].batch.Some?
    ensures Eager(arrived, Some(l.(stage := if writers[0].sync then Syncing else Inserting)), logged + [b], sp)
  {
    assert arrived[acked] == writers[0];
  }

  lemma EagerSynced(arrived: seq<Writer>, leading: Option<Leading>, logged: seq<Logged>, sp: Spread, leading': Option<Leading>)
    requires Eager(arrived, leading, logged, sp) && sp.base <= |logged|
    ensures Eager(arrived, leading', logged, sp.(synced := |logged| - sp.base))
  {
    hide EverySync;
  }

  /** A file synced to its last byte has all its records synced. */
  lemma WholeSynced(step: CrcStep, dest: Bytes, logged: seq<Logged>, synced: nat, syncedBytes: nat)
    requires DiskOk(step, dest, logged, synced, syncedBytes) && syncedBytes == |dest|
    ensures synced == |logged|
  {
    hide LogFrom, LoggedOk, Rep;
    var records := Reps(logged);
    if synced < |records| {
      LogGrows(step, records, synced);
      LogLonger(step, records, synced + 1);
    }
  }

  lemma LogLonger(step: CrcStep, records: seq<Bytes>, k: nat)
    requires k <= |records|
    ensures |LogFrom(step, records[..k], 0)| <= |LogFrom(step, records, 0)|
    decreases |records| - k
  {
    if k == |records| {
      assert records[..k] == records;
    } else {
      LogGrows(step, records, k);
      LogLonger(step, records, k + 1);
    }
  }

  // ------------------------------------------------------------------ the queue

  lemma NothingYet(step: CrcStep)
    ensures QueueOk([], 0, [], 0, None, [] + [] + [], [])
    ensures FilesOk(step, Disk(LogFile([], 0), None), [], Spread(0, 0, 0, 0))
    ensures MemsOk([], [], [], Spread(0, 0, 0, 0), 0) && SyncOk([], 0, [], Spread(0, 0, 0, 0))
    ensures Eager([], None, [], Spread(0, 0, 0, 0))
  {
    DiskEmpty(step);
  }

  class WriteQueue {
    const step: CrcStep
    var log: LogWriter                   // the open log
    var syncedBytes: nat                 // how much of its file is known to be on disk
    var oldLog: Option<LogFile>          // the log of the immutable memtable
    var writers: seq<Writer>             // waiting, the leader in front
    var lastSequence: nat                // what readers may see
    var leading: Option<Leading>
    var mem: seq<Add>
    var imm: Option<seq<Add>>            // the immutable memtable
    var stored: seq<Add>                 // the entries in tables
    ghost var arrived: seq<Writer>       // every writer so far
    ghost var acked: nat                 // how many of them have returned
    ghost var logged: seq<Logged>        // every record so far
    ghost var spread: Spread

    function Imm(): seq<Add>
      reads this`imm
    {
      if imm.Some? then imm.value else []
    }

    /** All that was inserted so far. */
    function Inserted(): seq<Add>
      reads this`stored, this`imm, this`mem
    {
      stored + Imm() + mem
    }

    function TheDisk(): Disk
      reads this`log, this`syncedBytes, this`oldLog, log`dest
    {
      Disk(LogFile(log.dest, syncedBytes), oldLog)
    }

    ghost predicate Valid()
      reads this, log
    {
      && log.Ok() && log.step == step
      && QueueOk(arrived, acked, writers, lastSequence, leading, Inserted(), logged)
      && FilesOk(step, TheDisk(), logged, spread)
      && MemsOk(stored, Imm(), logged, spread, lastSequence)
      && (imm.None? <==> oldLog.None?)
      && SyncOk(arrived, acked, logged, spread)
      && (leading.Some? && leading.value.stage.Inserting? && writers[0].sync ==> spread.base + spread.synced == |logged|)
      && Eager(arrived, leading, logged, spread)
    }

    constructor (step: CrcStep)
      ensures Valid() && fresh(log) && this.step == step && arrived == [] && acked == 0
      ensures writers == [] && leading.None? && lastSequence == 0 && logged == [] && stored == [] && imm.None? && mem == []
      ensures spread == Spread(0, 0, 0, 0) && oldLog.None? && syncedBytes == 0
    {
      hide QueueOk, FilesOk, MemsOk, SyncOk, Eager, LogWriter.Ok;
      NothingYet(step);
      this.step := step;
      log := new LogWriter(step);
      writers, lastSequence, leading, mem, syncedBytes := [], 0, None, [], 0;
      oldLog, imm, stored := None, None, [];
      arrived, acked, logged, spread := [], 0, [], Spread(0, 0, 0, 0);
    }

    lemma QueueParts()
      requires Valid()
      ensures acked <= |arrived| && arrived[acked..] == writers && SpreadOk(spread, logged) && |OpsOf(arrived[..acked])| == lastSequence
      ensures leading.Some? ==>
                && LeadingOk(leading.value, writers, lastSequence) && 0 < leading.value.count <= |writers|
                && leading.value.inserted <= |leading.value.ops| && writers[0].batch.Some?
    {
      hide FilesOk, SyncOk, Eager, LogWriter.Ok, OpsFit, AddsOf, AllAdds, AllLogged, Contiguous, MemOk, LogOk;
    }

    lemma ArrivedCount()
      requires Valid()
      ensures |OpsOf(arrived)| == lastSequence + |OpsOf(writers)|
    {
      hide FilesOk, MemsOk, SyncOk, Eager, LogOk, MemOk;
      OpsConcat(arrived[..acked], writers);
      assert arrived[..acked] + writers == arrived;
    }

    /** A thread enters DBImpl::Write. */
    method Arrive(w: Writer)
      requires Valid() && WriterFits(w) && |OpsOf(arrived)| + |BatchOf(w)| < MAX_SEQUENCE
      modifies this`writers, this`arrived
      ensures Valid() && arrived == old(arrived) + [w] && writers == old(writers) + [w]
    {
      hide QueueOk, FilesOk, MemsOk, SyncOk, Eager, SpreadOk, LogWriter.Ok, LeadingOk;
      QueueParts();
      QueueArrive(arrived, acked, writers, lastSequence, leading, Inserted(), logged, w);
      SyncMore(arrived, acked, logged, spread, arrived + [w], logged, spread);
      EagerArrive(arrived, leading, logged, spread, w);
      writers, arrived := writers + [w], arrived + [w];
    }

    /** The last branch of MakeRoomForWrite: the memtable becomes the immutable one and a
        new log is opened.  The old log is closed as it is, without a sync. */
    method SwitchMemTable()
      requires Valid() && leading.None? && imm.None?
      modifies this`mem, this`imm, this`log, this`oldLog, this`syncedBytes, this`spread
      ensures Valid() && fresh(log) && imm == Some(old(mem)) && mem == [] && log.dest == []
      ensures oldLog == Some(LogFile(old(log.dest), old(syncedBytes)))
      ensures spread == Spread(old(spread).from, |logged|, old(spread).synced, 0)
    {
      hide QueueOk, FilesOk, MemsOk, SyncOk, Eager, LogWriter.Ok, LeadingOk;
      QueueParts();
      FilesSwitch(step, TheDisk(), logged, spread);
      MemsSwitch(arrived, acked, writers, lastSequence, stored, mem, logged, spread);
      ghost var sp := Spread(spread.from, |logged|, spread.synced, 0);
      SyncMore(arrived, acked, logged, spread, arrived, logged, sp);
      assert stored + mem + [] == stored + [] + mem;
      EagerSwitch(arrived, logged, spread);
      oldLog, syncedBytes := Some(LogFile(log.dest, syncedBytes)), 0;
      imm, mem, spread := Some(mem), [], sp;
      log := new LogWriter(step);
    }

    /** The background thread has stored the immutable memtable in a table; its log is
        obsolete from then on. */
    method FlushMemTable()
      requires Valid() && imm.Some?
      modifies this`imm, this`oldLog, this`stored, this`spread
      ensures Valid() && imm.None? && stored == old(stored + Imm())
      ensures spread == Spread(old(spread).base, old(spread).base, 0, old(spread).synced)
    {
      hide QueueOk, FilesOk, MemsOk, SyncOk, Eager, LogWriter.Ok, LeadingOk;
      QueueParts();
      FilesFlushed(step, TheDisk(), logged, spread);
      MemsFlushed(stored, Imm(), logged, spread, lastSequence);
      ghost var sp := Spread(spread.base, spread.base, 0, spread.synced);
      SyncMore(arrived, acked, logged, spread, arrived, logged, sp);
      assert stored + Imm() + [] + mem == stored + Imm() + mem;
      EagerFlush(arrived, leading, logged, spread);
      stored := stored + Imm();
      imm, oldLog, spread := None, None, sp;
    }

    /** The front writer becomes the leader of a group. */
    method Lead()
      requires Valid() && leading.None? && writers != [] && writers[0].batch.Some?
      modifies this`leading
      ensures Valid() && leading.Some? && leading.value.stage.Appending? && leading.value.inserted == 0
      ensures var l := leading.value;
              && 0 < l.count <= |writers| && l.ops == OpsOf(writers[..l.count]) && l.sequence == lastSequence + 1
              && (forall i :: 0 < i < l.count ==> !Stops(writers, i))
              && (l.count < |writers| ==> Stops(writers, l.count))
    {
      hide QueueOk, FilesOk, MemsOk, SyncOk, Eager, SpreadOk, LogWriter.Ok, Stops, OpsOf;
      var count, ops := BuildBatchGroup(writers);
      QueueLead(arrived, acked, writers, lastSequence, Inserted(), logged, count, ops);
      EagerStage(arrived, leading, logged, spread, Some(Leading(count, lastSequence + 1, ops, Appending, 0)));
      leading := Some(Leading(count, lastSequence + 1, ops, Appending, 0));
    }

    /** A front writer without a batch forces a switch and returns. */
    method ForceSwitch()
      requires Valid() && leading.None? && imm.None? && writers != [] && writers[0].batch.None?
      modifies this`mem, this`imm, this`log, this`oldLog, this`syncedBytes, this`spread, this`writers, this`acked
      ensures Valid() && fresh(log) && imm == Some(old(mem)) && mem == [] && log.dest == []
      ensures oldLog == Some(LogFile(old(log.dest), old(syncedBytes)))
      ensures spread == Spread(old(spread).from, |logged|, old(spread).synced, 0)
      ensures writers == old(writers)[1..] && acked == old(acked) + 1
    {
      hide QueueOk, FilesOk, MemsOk, SyncOk, Eager, SpreadOk, LogWriter.Ok, LeadingOk, OpsOf;
      SwitchMemTable();
      QueueParts();
      QueueSkip(arrived, acked, writers, lastSequence, Inserted(), logged);
      SyncFinish(arrived, acked, writers, 1, logged, spread, false);
      writers, acked := writers[1..], acked + 1;
    }

    /** The leader logs the group as one record; with `sync` the file has to be synced next. */
    method AppendLog()
      requires Valid() && leading.Some? && leading.value.stage.Appending?
      modifies this`leading, this`logged, log
      ensures Valid() && leading.Some?
      ensures leading == Some(old(leading).value.(stage := if writers[0].sync then Syncing else Inserting))
      ensures logged == old(logged) + [Logged(leading.value.sequence, leading.value.ops)]
    {
      hide QueueOk, FilesOk, MemsOk, SyncOk, Eager, SpreadOk, LogWriter.Ok, LeadingOk, LoggedOk, Rep, Fragments;
      QueueParts();
      var l := leading.value;
      var stage := if writers[0].sync then Syncing else Inserting;
      ghost var b := Logged(l.sequence, l.ops);
      QueueAppend(arrived, acked, writers, lastSequence, l, Inserted(), logged, stage);
      RecordFits(b);
      var record := Rep(l.sequence, l.ops);
      FilesAppend(step, TheDisk(), logged, spread, b, record);
      MemsAppend(stored, Imm(), logged, spread, lastSequence, b);
      SpreadStays(spread, logged, b);
      SyncMore(arrived, acked, logged, spread, arrived, logged + [b], spread);
      EagerAppend(arrived, acked, writers, l, logged, spread, b);
      log.AddRecord(record);
      logged := logged + [b];
      leading := Some(l.(stage := stage));
    }

    method SyncLog()
      requires Valid() && leading.Some? && leading.value.stage.Syncing?
      modifies this`leading, this`syncedBytes, this`spread
      ensures Valid() && leading == Some(old(leading).value.(stage := Inserting)) && syncedBytes == |log.dest|
      ensures spread == old(spread).(synced := |logged| - spread.base)
    {
      hide QueueOk, FilesOk, MemsOk, SyncOk, Eager, LogWriter.Ok, LeadingOk;
      QueueParts();
      FilesSync(step, TheDisk(), logged, spread);
      ghost var sp := spread.(synced := |logged| - spread.base);
      SyncMore(arrived, acked, logged, spread, arrived, logged, sp);
      MemsSynced(stored, Imm(), logged, spread, sp, lastSequence);
      QueueSynced(arrived, acked, writers, lastSequence, leading.value, Inserted(), logged);
      EagerSynced(arrived, leading, logged, spread, Some(leading.value.(stage := Inserting)));
      syncedBytes, spread := |log.dest|, sp;
      leading := Some(leading.value.(stage := Inserting));
    }

    /** WriteBatchInternal::InsertInto, one operation. */
    method InsertNext()
      requires Valid() && leading.Some? && leading.value.stage.Inserting? && leading.value.inserted < |leading.value.ops|
      modifies this`leading, this`mem
      ensures Valid() && leading == Some(old(leading).value.(inserted := old(leading).value.inserted + 1))
      ensures var l := old(leading).value; mem == old(mem) + [Add(l.sequence + l.inserted, l.ops[l.inserted])]
    {
      hide QueueOk, FilesOk, MemsOk, SyncOk, Eager, SpreadOk, LogWriter.Ok;
      var l := leading.value;
      var add := Add(l.sequence + l.inserted, l.ops[l.inserted]);
      QueueInsert(arrived, acked, writers, lastSequence, l, Inserted(), logged);
      assert stored + Imm() + (mem + [add]) == stored + Imm() + mem + [add];
      EagerStage(arrived, leading, logged, spread, Some(l.(inserted := l.inserted + 1)));
      mem := mem + [add];
      leading := Some(l.(inserted := l.inserted + 1));
    }

    /** The leader publishes the group's sequence numbers and acknowledges its writers. */
    method Finish()
      requires Valid() && leading.Some? && leading.value.stage.Inserting? && leading.value.inserted == |leading.value.ops|
      modifies this`leading, this`writers, this`lastSequence, this`acked
      ensures Valid() && leading.None?
      ensures lastSequence == old(lastSequence) + |old(leading).value.ops|
      ensures acked == old(acked) + old(leading).value.count && writers == old(writers)[old(leading).value.count..]
    {
      hide QueueOk, FilesOk, MemsOk, LogWriter.Ok, SyncOk, Eager, AllAdds, OpsOf, LeadingOk;
      QueueParts();
      var l := leading.value;
      QueueFinish(arrived, acked, writers, lastSequence, l, Inserted(), logged);
      LoggedCovers(arrived, acked + l.count, writers[l.count..], lastSequence + |l.ops|, Inserted(), logged);
      FinishSyncs(writers, l, lastSequence);
      MemsLater(stored, Imm(), logged, spread, lastSequence, lastSequence + |l.ops|);
      SyncFinish(arrived, acked, writers, l.count, logged, spread, writers[0].sync);
      EagerStage(arrived, leading, logged, spread, None);
      writers, acked, lastSequence := writers[l.count..], acked + l.count, lastSequence + |l.ops|;
      leading := None;
    }

    /** A reader at the last sequence number sees every batch of the writers that have
        returned, and nothing of any other: a batch is visible as a whole or not at all. */
    lemma ReadersSeeWholeBatches()
      requires Valid()
      ensures acked <= |arrived| && lastSequence == |OpsOf(arrived[..acked])| <= |Inserted()|
      ensures Inserted()[..lastSequence] == AddsOf(1, OpsOf(arrived[..acked]))
      ensures forall i :: lastSequence <= i < |Inserted()| ==> Inserted()[i].sequence > lastSequence
    {
      hide FilesOk, MemsOk, SyncOk, Eager, OpsOf, LogOk, PlaceOk;
      QueueParts();
      AddsConcat(1, OpsOf(arrived[..acked]), InMem(leading));
    }

    /** After a crash that keeps at least the synced bytes of each log, what is recovered
        has the operations of every sync writer that has returned. */
    lemma CrashKeepsSynced(nOld: nat, n: nat)
      requires Valid() && MayLeave(TheDisk(), nOld, n)
      ensures FilesOk(step, TheDisk(), logged, spread) && acked <= |arrived|
      ensures var r := Recovered(step, TheDisk(), stored, logged, spread, nOld, n);
              forall i :: 0 <= i < acked && arrived[i].sync && arrived[i].batch.Some? ==> HasWrite(r, arrived, i)
    {
      hide QueueOk, FilesOk, MemsOk, SyncOk, Eager, SpreadOk, LogWriter.Ok, LeadingOk, Recovered, HasWrite;
      QueueParts();
      LoggedWithin(arrived, acked, writers, lastSequence, leading, Inserted(), logged);
      SyncedRecovered(step, TheDisk(), stored, Imm(), logged, spread, lastSequence, arrived, acked, nOld, n);
    }

    /** Every crash leaves a prefix of the writes, in queue order, exactly when the old log
        is on disk up to its last operation or the open log holds no operation. */
    lemma PrefixInEveryCrash()
      requires Valid()
      ensures FilesOk(step, TheDisk(), logged, spread) && SpreadOk(spread, logged)
      ensures (forall nOld, n :: MayLeave(TheDisk(), nOld, n) ==>
                 Recovered(step, TheDisk(), stored, logged, spread, nOld, n) <= AddsOf(1, OpsOf(arrived))) <==>
              NoGap(logged, spread)
    {
      hide QueueOk, FilesOk, MemsOk, SyncOk, Eager, SpreadOk, LogWriter.Ok, LeadingOk, Recovered, NoGap, MayLeave;
      QueueParts();
      LoggedWithin(arrived, acked, writers, lastSequence, leading, Inserted(), logged);
      PrefixAlways(step, TheDisk(), stored, Imm(), logged, spread, lastSequence, OpsOf(arrived));
    }

    /** If every writer asks for a sync, every crash leaves a prefix of the writes. */
    lemma EverySyncIsPrefix()
      requires Valid() && EverySync(arrived)
      ensures SpreadOk(spread, logged) && NoGap(logged, spread)
    {
      hide QueueOk, FilesOk, MemsOk, SyncOk, LogWriter.Ok, LeadingOk, Count;
      QueueParts();
    }

    /** So does a state whose old log, if there is one, is synced to its last byte. */
    lemma OldLogSyncedIsPrefix()
      requires Valid() && (oldLog.Some? ==> oldLog.value.syncedBytes == |oldLog.value.dest|)
      ensures SpreadOk(spread, logged) && NoGap(logged, spread)
    {
      hide QueueOk, MemsOk, SyncOk, Eager, LogWriter.Ok, LeadingOk, Count, DiskOk;
      QueueParts();
      if oldLog.Some? {
        WholeSynced(step, oldLog.value.dest, logged[spread.from..spread.base], spread.oldSynced, oldLog.value.syncedBytes);
      }
    }

    /** What is logged, what is inserted, and what readers may see: the operations of the
        writers in queue order, each once and under consecutive sequence numbers from 1. */
    lemma OnceInOrder()
      requires Valid()
      ensures acked <= |arrived| && lastSequence == |OpsOf(arrived[..acked])|
      ensures AllAdds(logged) <= AddsOf(1, OpsOf(arrived)) && lastSequence <= |AllAdds(logged)|
      ensures Inserted() <= AddsOf(1, OpsOf(arrived)) && lastSequence <= |Inserted()|
      ensures Inserted()[..lastSequence] == AddsOf(1, OpsOf(arrived[..acked]))
    {
      hide FilesOk, MemsOk, SyncOk, Eager, LogWriter.Ok, QueueOk, AllAdds, OpsOf, AddsOf;
      QueueParts();
      ReadersSeeWholeBatches();
      LoggedWithin(arrived, acked, writers, lastSequence, leading, Inserted(), logged);
      InsertedWithin(arrived, acked, writers, lastSequence, leading, Inserted(), logged);
    }
  }

  /** The log holds no operation that was not asked for. */
  lemma LoggedWithin(arrived: seq<Writer>, acked: nat, writers: seq<Writer>, lastSequence: nat,
                     leading: Option<Leading>, mem: seq<Add>, logged: seq<Logged>)
    requires QueueOk(arrived, acked, writers, lastSequence, leading, mem, logged)
    ensures AllAdds(logged) <= AddsOf(1, OpsOf(arrived))
  {
    hide OpsOf, MemOk, WritersFit, OpsFit, AllLogged, Contiguous, AddsOf;
    var done := OpsOf(arrived[..acked]);
    if leading.Some? {
      var n := acked + leading.value.count;
      PlaceNext(arrived, acked, writers, leading.value.count);
      OpsGrow(arrived, n);
    } else {
      OpsGrow(arrived, acked);
    }
    assert done + InLog(leading) <= OpsOf(arrived) by {
      if leading.None? || leading.value.stage.Appending? {
        OpsGrow(arrived, acked);
        assert done + [] == done;
      }
    }
    AddsWithin(done + InLog(leading), OpsOf(arrived));
  }

  lemma InsertedWithin(arrived: seq<Writer>, acked: nat, writers: seq<Writer>, lastSequence: nat,
                       leading: Option<Leading>, mem: seq<Add>, logged: seq<Logged>)
    requires QueueOk(arrived, acked, writers, lastSequence, leading, mem, logged)
    ensures mem <= AddsOf(1, OpsOf(arrived)) && lastSequence <= |AllAdds(logged)|
  {
    hide OpsOf, WritersFit, OpsFit, AllLogged, Contiguous;
    var done := OpsOf(arrived[..acked]);
    if leading.Some? {
      PlaceNext(arrived, acked, writers, leading.value.count);
      OpsGrow(arrived, acked + leading.value.count);
    } else {
      OpsGrow(arrived, acked);
      assert done + [] == done;
    }
    assert done + InMem(leading) <= OpsOf(arrived);
    AddsWithin(done + InMem(leading), OpsOf(arrived));
  }

  lemma AddsWithin(a: seq<BatchOp>, b: seq<BatchOp>)
    requires a <= b
    ensures AddsOf(1, a) <= AddsOf(1, b)
  {
  }

  lemma LoggedCovers(arrived: seq<Writer>, acked: nat, writers: seq<Writer>, lastSequence: nat, mem: seq<Add>, logged: seq<Logged>)
    requires QueueOk(arrived, acked, writers, lastSequence, None, mem, logged)
    ensures acked <= |arrived| && |OpsOf(arrived[..acked])| <= |AllAdds(logged)|
  {
    hide OpsOf, MemOk, WritersFit;
  }

  lemma FinishSyncs(writers: seq<Writer>, l: Leading, lastSequence: nat)
    requires LeadingOk(l, writers, lastSequence)
    ensures l.count <= |writers| && forall i :: 0 <= i < l.count && writers[i].sync && writers[i].batch.Some? ==> writers[0].sync
  {
  }

  lemma MemsLater(stored: seq<Add>, imm: seq<Add>, logged: seq<Logged>, sp: Spread, last: nat, later: nat)
    requires MemsOk(stored, imm, logged, sp, last) && last <= later
    ensures SpreadOk(sp, logged) && MemsOk(stored, imm, logged, sp, later) && Count(logged, sp.base) <= last
  {
  }

  lemma MemsSynced(stored: seq<Add>, imm: seq<Add>, logged: seq<Logged>, sp: Spread, sp': Spread, last: nat)
    requires MemsOk(stored, imm, logged, sp, last) && SpreadOk(sp', logged)
    requires sp'.from == sp.from && sp'.base == sp.base
    ensures MemsOk(stored, imm, logged, sp', last)
  {
  }

  /** A synced record still has to go to the memtable. */
  lemma QueueSynced(arrived: seq<Writer>, acked: nat, writers: seq<Writer>, lastSequence: nat, l: Leading, mem: seq<Add>, logged: seq<Logged>)
    requires QueueOk(arrived, acked, writers, lastSequence, Some(l), mem, logged) && l.stage.Syncing?
    ensures QueueOk(arrived, acked, writers, lastSequence, Some(l.(stage := Inserting)), mem, logged)
  {
    hide PlaceOk, OpsFit, OpsOf, AllAdds, AddsOf, AllLogged, Contiguous;
  }

  lemma RecordFits(b: Logged)
    requires LoggedOk(b)
    ensures b.sequence < LONG && |b.ops| < WORD
  {
  }
}
