/** The write queue and the database together: the queue orders, logs and acknowledges
    writes, and the database holds those of the writers that have returned. */
module Joint {
  import opened Keys
  import opened History
  import opened Files
  import opened Compactions
  import opened CompactionWork
  import opened Reads
  import opened Lsm
  import opened Stores
  import opened Steps
  import opened Core
  import opened Alone
  import opened Durable
  import opened Batches
  import opened Logs
  import opened Recovery
  import opened GroupCommit
  import opened Interleavings
  import Db
  import Runs

  // ------------------------------------------------------------------ the entries of the queue

  /** The sequence numbers fit into an internal key. */
  ghost predicate Numbers(adds: seq<Add>) {
    forall i :: 0 <= i < |adds| ==> adds[i].sequence <= MAX_SEQUENCE
  }

  lemma NumbersFit(first: nat, ops: seq<BatchOp>)
    requires first + |ops| <= MAX_SEQUENCE + 1
    ensures Numbers(AddsOf(first, ops))
  {
  }

  lemma NumbersJoin(m: Meaning, a: seq<Add>, b: seq<Add>)
    requires Numbers(a) && Numbers(b)
    ensures Numbers(a + b) && ToMemTable(m, a + b) == ToMemTable(m, a) + ToMemTable(m, b)
  {
  }

  lemma NumbersFront(m: Meaning, a: seq<Add>, b: seq<Add>)
    requires a <= b && Numbers(b)
    ensures Numbers(a) && ToMemTable(m, a) == ToMemTable(m, b)[..|a|]
  {
  }

  /** The writes are these operations, under sequence numbers from 1. */
  ghost predicate Holds(m: Meaning, ops: seq<BatchOp>, writes: seq<Entry>) {
    && |writes| == |ops| && Numbers(AddsOf(1, ops))
    && writes == ToMemTable(m, AddsOf(1, ops))
  }

  lemma HoldsNext(m: Meaning, done: seq<BatchOp>, writes: seq<Entry>, ops: seq<BatchOp>)
    requires Holds(m, done, writes) && |writes| + |ops| < MAX_SEQUENCE
    ensures Holds(m, done + ops, writes + Db.ToEntries(ToWrites(m, ops), |writes| + 1))
  {
    hide AddsOf, ToMemTable, Numbers, Db.ToEntries, ToWrites;
    WriteIsLogged(m, |writes| + 1, ops);
    NumbersFit(|writes| + 1, ops);
    AddsConcat(1, done, ops);
    NumbersJoin(m, AddsOf(1, done), AddsOf(|done| + 1, ops));
  }

  /** The database holds the operations of the writers that have returned, and its
      memtables are those of the queue. */
  ghost predicate Together(m: Meaning, arrived: seq<Writer>, acked: nat, stored: seq<Add>, imm: Option<seq<Add>>,
                           writes: seq<Entry>, st: Store)
  {
    && acked <= |arrived| && Holds(m, OpsOf(arrived[..acked]), writes)
    && (st.imm.None? <==> imm.None?)
    && PlacesOk(writes, st, |stored|, |stored + if imm.Some? then imm.value else []|)
  }

  /** Queue and database are in order and go together. */
  ghost predicate InStep(m: Meaning, q: WriteQueue, db: Db.DB)
    reads q, q.log, db
  {
    && q.Valid() && db.Valid() && q.lastSequence == db.lastSequence
    && Together(m, q.arrived, q.acked, q.stored, q.imm, db.writes, db.TheStore())
  }

  /** Without the memtables the tables read as the writes that were stored in them. */
  ghost predicate Durably(q: WriteQueue, db: Db.DB)
    reads q`stored, db`writes, db`tables, db`version
  {
    TablesRead(db.writes, db.tables, db.version, |q.stored|)
  }

  lemma TogetherStart(m: Meaning)
    ensures Together(m, [], 0, [], None, [], Store([], None, map[], seq(NUM_LEVELS, _ => [])))
    ensures TablesRead([], map[], seq(NUM_LEVELS, _ => []), 0)
  {
    var v: Version := seq(NUM_LEVELS, _ => []);
    assert forall l, f :: 0 <= l < |v| ==> f !in v[l];
    assert LevelsEntries(map[], v) == {};
    assert OpsOf([]) == [];
    forall k, r: nat
      ensures Read({}, k, r) == ReadAt([], k, r)
    {
      assert Newest({}, k, r, None);
      ReadIs({}, k, r, None);
    }
  }

  lemma TogetherArrive(m: Meaning, arrived: seq<Writer>, acked: nat, stored: seq<Add>, imm: Option<seq<Add>>, writes: seq<Entry>,
                       st: Store, w: Writer)
    requires Together(m, arrived, acked, stored, imm, writes, st)
    ensures Together(m, arrived + [w], acked, stored, imm, writes, st)
  {
    hide OpsOf, AddsOf, ToMemTable, PlacesOk, Numbers;
    assert (arrived + [w])[..acked] == arrived[..acked];
  }

  /** A group is acknowledged, and its operations are written. */
  lemma TogetherFinish(m: Meaning, arrived: seq<Writer>, acked: nat, acked': nat, stored: seq<Add>, imm: Option<seq<Add>>,
                       writes: seq<Entry>, st: Store, ops: seq<BatchOp>, st': Store)
    requires Together(m, arrived, acked, stored, imm, writes, st) && acked <= acked' <= |arrived|
    requires OpsOf(arrived[..acked']) == OpsOf(arrived[..acked]) + ops && |writes| + |ops| < MAX_SEQUENCE
    requires var es := Db.ToEntries(ToWrites(m, ops), |writes| + 1);
             st'.imm == st.imm && AllOf(st'.mem) == AllOf(st.mem) + AllOf(es)
    ensures Together(m, arrived, acked', stored, imm, writes + Db.ToEntries(ToWrites(m, ops), |writes| + 1), st')
  {
    hide Holds, PlacesOk, AllOf, OpsOf, ToWrites, Db.ToEntries;
    HoldsNext(m, OpsOf(arrived[..acked]), writes, ops);
    var es := Db.ToEntries(ToWrites(m, ops), |writes| + 1);
    WritePlaces(writes, st, |stored|, |stored + if imm.Some? then imm.value else []|, es, st');
  }

  lemma TogetherSwitch(m: Meaning, arrived: seq<Writer>, acked: nat, acked': nat, stored: seq<Add>, mem: seq<Add>,
                       writes: seq<Entry>, st: Store)
    requires Together(m, arrived, acked, stored, None, writes, st) && acked <= acked' <= |arrived|
    requires OpsOf(arrived[..acked']) == OpsOf(arrived[..acked]) && |stored + mem| == |writes|
    ensures Together(m, arrived, acked', stored, Some(mem), writes, st.(mem := [], imm := Some(st.mem)))
  {
    hide OpsOf, AddsOf, ToMemTable, PlacesOk, Numbers;
    SwitchPlaces(writes, st, |stored|, |stored + []|);
  }

  lemma TogetherFlush(m: Meaning, arrived: seq<Writer>, acked: nat, stored: seq<Add>, imm: Option<seq<Add>>, writes: seq<Entry>,
                      st: Store, st': Store)
    requires Together(m, arrived, acked, stored, imm, writes, st) && st'.mem == st.mem && st'.imm.None?
    ensures Together(m, arrived, acked, stored + (if imm.Some? then imm.value else []), None, writes, st')
  {
    hide OpsOf, AddsOf, ToMemTable, PlacesOk, Numbers;
    var switched := |stored + if imm.Some? then imm.value else []|;
    assert |stored + (if imm.Some? then imm.value else []) + []| == switched;
    FlushPlaces(writes, st, |stored|, switched, st');
  }

  // ------------------------------------------------------------------ what an event makes of both

  /** A step of a thread in DBImpl::Write, of a reader, or of the background thread. */
  datatype Event =
    | ByWriter(move: Move)
    | Lookup(key: UserKey, snapshot: Option<nat>)
    | TakeSnapshot
    | DropSnapshot(i: nat)
    | Background(manual: Option<Db.Manual>)
    | Install

  datatype Both = Both(queue: Summary, db: Db.State)

  ghost function BothNow(q: WriteQueue, db: Db.DB): Both
    reads q, db
  {
    Both(Now(q), db.Now())
  }

  /** What a move of the queue means for the database: a new memtable, the operations of a
      group that is published, or the flush of a memtable; most mean nothing yet. */
  ghost function Meant(m: Meaning, s: Summary, move: Move): Option<Runs.Command>
    requires SummaryOk(s)
  {
    var t := Next(s, move);
    if !s.closed && t.closed then Some(Runs.NewMemTable)
    else if move.ToFinish? && s.group.Some? && t.group.None? then Some(Runs.Apply(ToWrites(m, GroupOps(s))))
    else if move.ToFlush? && s.closed then Some(Runs.Background(None))
    else None
  }

  /** The queue makes its move, and the database does what it means.  A flush waits for a
      running compaction. */
  ghost predicate WriterMoves(m: Meaning, options: Options, fileSize: seq<Entry> -> nat, s: Both, move: Move, t: Both) {
    && SummaryOk(s.queue)
    && if move.ToFlush? && s.db.running.Some? then t == s else
       && t.queue == Next(s.queue, move)
       && match Meant(m, s.queue, move)
          case None => t.db == s.db
          case Some(c) => Runs.Moves(options, fileSize, s.db, c, t.db)
  }

  /** A command that is not a write leaves the queue alone, but for background work that
      stores a pending memtable. */
  ghost predicate Happens(m: Meaning, options: Options, fileSize: seq<Entry> -> nat, s: Both, e: Event, t: Both) {
    match e
    case ByWriter(move) => WriterMoves(m, options, fileSize, s, move, t)
    case Lookup(k, snapshot) => t.queue == s.queue && Runs.Moves(options, fileSize, s.db, Runs.Lookup(k, snapshot), t.db)
    case TakeSnapshot => t.queue == s.queue && Runs.Moves(options, fileSize, s.db, Runs.TakeSnapshot, t.db)
    case DropSnapshot(i) => t.queue == s.queue && Runs.Moves(options, fileSize, s.db, Runs.DropSnapshot(i), t.db)
    case Background(manual) =>
      && SummaryOk(s.queue) && t.queue == (if Runs.CanStart(s.db, manual) then Next(s.queue, ToFlush) else s.queue)
      && Runs.Moves(options, fileSize, s.db, Runs.Background(manual), t.db)
    case Install => t.queue == s.queue && Runs.Moves(options, fileSize, s.db, Runs.Install, t.db)
  }

  // ------------------------------------------------------------------ steps of the writing threads

  /** A thread enters DBImpl::Write. */
  method ArriveBoth(m: Meaning, q: WriteQueue, db: Db.DB, w: Writer)
    requires InStep(m, q, db)
    modifies q`writers, q`arrived
    ensures InStep(m, q, db) && q.stored == old(q.stored)
    ensures old(SummaryOk(Now(q))) && Now(q) == Next(old(Now(q)), ToArrive(w))
  {
    hide WriteQueue.Valid, Db.DB.Valid, Together, WriterFits, OpsOf, SummaryOk;
    SummaryIsOk(q);
    var fits := Fits(q, w);
    if fits {
      TogetherArrive(m, q.arrived, q.acked, q.stored, q.imm, db.writes, db.TheStore(), w);
      q.Arrive(w);
    }
  }

  /** The leader publishes its group: readers of the database see its operations. */
  method FinishBoth(m: Meaning, q: WriteQueue, db: Db.DB)
    requires InStep(m, q, db)
    requires q.leading.Some? && q.leading.value.stage.Inserting? && q.leading.value.inserted == |q.leading.value.ops|
    modifies q`leading, q`writers, q`lastSequence, q`acked, db`mem, db`lastSequence, db`writes
    ensures InStep(m, q, db) && (old(Durably(q, db)) ==> Durably(q, db))
    ensures old(SummaryOk(Now(q))) && Now(q) == Next(old(Now(q)), ToFinish)
    ensures Runs.Moves(db.options, db.fileSize, old(db.Now()), Runs.Apply(ToWrites(m, GroupOps(old(Now(q))))), db.Now())
  {
    hide WriteQueue.Valid, Db.DB.Valid, Together, OpsOf, ToWrites, Db.ToEntries, TablesRead, AllOf, SummaryOk, Runs.Moves;
    SummaryIsOk(q);
    q.QueueParts();
    var ops := q.leading.value.ops;
    GroupIsNext(q);
    Runs.Counted(db);
    ghost var st, writes, acked, s := db.TheStore(), db.writes, q.acked, db.Now();
    q.Finish();
    db.Write(ToWrites(m, ops));
    Runs.MovesApply(db.options, db.fileSize, s, ToWrites(m, ops), db.Now());
    ghost var es := Db.ToEntries(ToWrites(m, ops), |writes| + 1);
    TogetherFinish(m, q.arrived, acked, q.acked, q.stored, q.imm, writes, st, ops, db.TheStore());
    if TablesRead(writes, db.tables, db.version, |q.stored|) {
      WriteTables(writes, db.tables, db.version, |q.stored|, es);
    }
  }

  lemma GroupIsNext(q: WriteQueue)
    requires q.Valid() && q.leading.Some?
    ensures var l := q.leading.value;
            && q.acked + l.count <= |q.arrived|
            && OpsOf(q.arrived[..q.acked + l.count]) == OpsOf(q.arrived[..q.acked]) + l.ops
            && q.lastSequence + |l.ops| < MAX_SEQUENCE
  {
    hide OpsOf, WriteQueue.Valid, PlaceOk, OpsFit, Stops;
    q.QueueParts();
    PlaceOfQueue(q);
    PlaceNext(q.arrived, q.acked, q.writers, q.leading.value.count);
  }

  lemma PlaceOfQueue(q: WriteQueue)
    requires q.Valid()
    ensures PlaceOk(q.arrived, q.acked, q.writers)
  {
    hide PlaceOk, FilesOk, MemsOk, SyncOk, Eager, LogWriter.Ok, LeadingOk, MemOk, LogOk;
  }

  /** Between groups all that was inserted can be read. */
  lemma AllInserted(q: WriteQueue)
    requires q.Valid() && q.leading.None?
    ensures |q.Inserted()| == q.lastSequence
  {
    hide PlaceOk, FilesOk, MemsOk, SyncOk, Eager, LogWriter.Ok, LogOk, OpsOf;
    q.QueueParts();
    var done := OpsOf(q.arrived[..q.acked]);
    assert done + [] == done;
    AddsLength(done);
  }

  /** The memtable is switched, in the queue and in the database. */
  method SwitchBoth(m: Meaning, q: WriteQueue, db: Db.DB)
    requires InStep(m, q, db) && q.leading.None? && q.imm.None? && q.writers != []
    modifies q`mem, q`imm, q`log, q`oldLog, q`syncedBytes, q`spread, db`mem, db`imm, db`nextFileNumber
    ensures InStep(m, q, db) && fresh(q.log) && q.stored == old(q.stored)
    ensures old(SummaryOk(Now(q))) && Now(q) == Next(old(Now(q)), ToSwitch)
    ensures Runs.Moves(db.options, db.fileSize, old(db.Now()), Runs.NewMemTable, db.Now())
  {
    hide WriteQueue.Valid, Db.DB.Valid, OpsOf, PlacesOk, Numbers, ToMemTable, AddsOf, SummaryOk, Stops, Runs.Moves;
    ghost var s := db.Now();
    SummaryIsOk(q);
    AllInserted(q);
    assert q.Inserted() == q.stored + q.mem by { assert q.stored + [] + q.mem == q.stored + q.mem; }
    Runs.Counted(db);
    ghost var st := db.TheStore();
    TogetherSwitch(m, q.arrived, q.acked, q.acked, q.stored, q.mem, db.writes, st);
    q.SwitchMemTable();
    db.SwitchMemTable();
    Runs.MovesSwitch(db.options, db.fileSize, s, db.Now());
  }

  method ForceBoth(m: Meaning, q: WriteQueue, db: Db.DB)
    requires InStep(m, q, db) && q.leading.None? && q.imm.None? && q.writers != [] && q.writers[0].batch.None?
    modifies q`mem, q`imm, q`log, q`oldLog, q`syncedBytes, q`spread, q`writers, q`acked, db`mem, db`imm, db`nextFileNumber
    ensures InStep(m, q, db) && fresh(q.log) && q.stored == old(q.stored)
    ensures old(SummaryOk(Now(q))) && Now(q) == Next(old(Now(q)), ToLead)
    ensures Runs.Moves(db.options, db.fileSize, old(db.Now()), Runs.NewMemTable, db.Now())
  {
    hide WriteQueue.Valid, Db.DB.Valid, OpsOf, PlacesOk, Numbers, ToMemTable, AddsOf, SummaryOk, Stops, Runs.Moves;
    ghost var s := db.Now();
    SummaryIsOk(q);
    AllInserted(q);
    assert q.Inserted() == q.stored + q.mem by { assert q.stored + [] + q.mem == q.stored + q.mem; }
    Runs.Counted(db);
    ghost var st, acked, writers := db.TheStore(), q.acked, q.writers;
    PlaceOfQueue(q);
    q.QueueParts();
    NothingForced(q.arrived, q.acked, q.writers);
    TogetherSwitch(m, q.arrived, acked, acked + 1, q.stored, q.mem, db.writes, st);
    q.ForceSwitch();
    db.SwitchMemTable();
    Runs.MovesSwitch(db.options, db.fileSize, s, db.Now());
  }

  lemma NothingForced(arrived: seq<Writer>, acked: nat, writers: seq<Writer>)
    requires PlaceOk(arrived, acked, writers) && writers != [] && writers[0].batch.None?
    ensures acked + 1 <= |arrived| && OpsOf(arrived[..acked + 1]) == OpsOf(arrived[..acked])
  {
    hide PlaceOk, OpsOf;
    PlaceNext(arrived, acked, writers, 1);
    assert writers[..1] == [writers[0]];
    OneWriter(writers[0]);
    assert OpsOf(arrived[..acked]) + [] == OpsOf(arrived[..acked]);
  }

  // ------------------------------------------------------------------ steps behind them

  lemma InsideDb(db: Db.DB)
    requires db.Valid()
    ensures InOrderStore(db.writes, db.TheStore(), db.nextFileNumber)
    ensures db.alone ==> AloneOk(db.version, db.running)
    ensures db.running.Some? ==>
              && RunningOk(db.writes, db.TheStore(), db.running.value, db.merged, db.Oldest())
              && |db.version| == NUM_LEVELS && db.running.value.inputs.level + 1 < NUM_LEVELS
  {
    hide InOrderStore, AloneOk, Compacting, ReadsHistory, Flatten, Kept;
    CoreParts(db.writes, db.TheStore(), db.nextFileNumber, db.running, db.merged, db.Oldest(), db.safe);
    if db.running.Some? {
      CompactingParts(db.writes, db.tables, db.version, db.running.value.inputs, db.merged);
    }
  }

  /** One round of background work, which stores a pending memtable first. */
  method BackgroundBoth(m: Meaning, q: WriteQueue, db: Db.DB, manual: Option<Db.Manual>)
    requires InStep(m, q, db) && db.running.None? && (manual.Some? ==> manual.value.level + 1 < NUM_LEVELS)
    modifies q`imm, q`oldLog, q`stored, q`spread,
             db`imm, db`tables, db`version, db`nextFileNumber, db`seekFile, db`allowedSeeks,
             db`compactPointer, db`running, db`merged, db`alone
    ensures InStep(m, q, db) && (old(Durably(q, db)) ==> Durably(q, db))
    ensures old(SummaryOk(Now(q))) && Now(q) == Next(old(Now(q)), ToFlush)
    ensures Runs.Moves(db.options, db.fileSize, old(db.Now()), Runs.Background(manual), db.Now())
    ensures db.snapshots == [] ==> db.alone == old(db.alone)
  {
    hide WriteQueue.Valid, Db.DB.Valid, OpsOf, PlacesOk, Holds, TablesRead, InOrderStore, Store.Entries, RunningOk, AloneOk,
      Db.Round, SummaryOk, Runs.Moves;
    SummaryIsOk(q);
    ghost var st, next, flushed, queued := db.TheStore(), db.nextFileNumber, |q.stored|, q.imm;
    ghost var switched := |q.stored + q.Imm()|;
    InsideDb(db);
    TogetherPlaces(m, q.arrived, q.acked, q.stored, q.imm, db.writes, st);
    ghost var durable := Durably(q, db);
    ghost var s := db.Now();
    ghost var c;
    var done;
    done, c := db.BackgroundCompaction(manual);
    Runs.MovesRound(db.options, db.fileSize, s, manual, c, db.Now());
    InsideDb(db);
    TogetherFlush(m, q.arrived, q.acked, q.stored, q.imm, db.writes, st, db.TheStore());
    if durable {
      FlushTables(db.writes, st, next, flushed, switched, db.TheStore(), db.nextFileNumber);
    }
    if q.imm.Some? {
      q.FlushMemTable();
    }
    assert queued.None? ==> q.stored + [] == q.stored;
  }

  lemma TogetherPlaces(m: Meaning, arrived: seq<Writer>, acked: nat, stored: seq<Add>, imm: Option<seq<Add>>, writes: seq<Entry>, st: Store)
    requires Together(m, arrived, acked, stored, imm, writes, st)
    ensures PlacesOk(writes, st, |stored|, |stored + if imm.Some? then imm.value else []|)
  {
  }

  /** The compaction is also safe for readers of the tables alone. */
  ghost predicate RunningIsDurable(db: Db.DB)
    requires db.running.Some? && |db.version| == NUM_LEVELS && db.running.value.inputs.level + 1 < NUM_LEVELS
    reads db
  {
    SafeOnDisk(db.tables, db.version, db.running.value.inputs, db.running.value.smallestSnapshot)
  }

  /** Installing a compaction. */
  method InstallBoth(m: Meaning, q: WriteQueue, db: Db.DB)
    requires InStep(m, q, db) && db.running.Some?
    modifies db`running, db`tables, db`version, db`nextFileNumber, db`seekFile, db`allowedSeeks, db`safe
    ensures InStep(m, q, db) && Runs.Moves(db.options, db.fileSize, old(db.Now()), Runs.Install, db.Now())
    ensures old(|db.version| == NUM_LEVELS && db.running.value.inputs.level + 1 < NUM_LEVELS)
    ensures old(Durably(q, db) && (db.alone || RunningIsDurable(db))) ==> Durably(q, db)
  {
    hide WriteQueue.Valid, Db.DB.Valid, OpsOf, PlacesOk, Holds, TablesRead, InOrderStore, Store.Entries, RunningOk, AloneOk, SafeOnDisk,
      AfterInstall, SameReads, Db.Installs, Runs.Moves;
    ghost var s := db.Now();
    ghost var st, next, r, merged, oldest := db.TheStore(), db.nextFileNumber, db.running.value, db.merged, db.Oldest();
    InsideDb(db);
    TogetherPlaces(m, q.arrived, q.acked, q.stored, q.imm, db.writes, st);
    if db.alone {
      AloneOnDisk(db.writes, st, next, r, merged, oldest);
    }
    ghost var durable := Durably(q, db) && RunningIsDurable(db);
    db.InstallCompactionResults();
    Runs.MovesInstall(db.options, db.fileSize, s, db.Now());
    InsideDb(db);
    if durable {
      InstallTables(db.writes, st, next, r, merged, oldest, db.TheStore(), db.nextFileNumber, |q.stored|, |q.stored + q.Imm()|);
    }
    SameStorePlaces(db.writes, st, db.TheStore(), |q.stored|, |q.stored + q.Imm()|);
  }

  lemma SameStorePlaces(h: seq<Entry>, st: Store, st': Store, flushed: nat, switched: nat)
    requires PlacesOk(h, st, flushed, switched) && st'.mem == st.mem && st'.imm == st.imm
    ensures PlacesOk(h, st', flushed, switched)
  {
  }

  // ------------------------------------------------------------------ every run

  /** A step of a leader that readers do not see yet. */
  method LeaderStep(m: Meaning, q: WriteQueue, db: Db.DB, move: Move)
    requires InStep(m, q, db) && (move.ToLead? || move.ToLog? || move.ToSync? || move.ToInsert?)
    requires move.ToLead? && q.writers != [] ==> q.writers[0].batch.Some? || q.leading.Some? || q.imm.Some?
    modifies q`leading, q`logged, q`mem, q`syncedBytes, q`spread, q.log
    ensures InStep(m, q, db)
    ensures old(SummaryOk(Now(q))) && Now(q) == Next(old(Now(q)), move)
  {
    hide WriteQueue.Valid, Db.DB.Valid, Together, OpsOf, Stops, SummaryOk;
    SummaryIsOk(q);
    q.QueueParts();
    match move
    case ToLead =>
      if q.leading.None? && q.writers != [] && q.writers[0].batch.Some? {
        q.Lead();
        LongestIsOne(q.writers, q.leading.value.count);
      }
    case ToLog =>
      if q.leading.Some? && q.leading.value.stage.Appending? {
        q.AppendLog();
      }
    case ToSync =>
      if q.leading.Some? && q.leading.value.stage.Syncing? {
        q.SyncLog();
      }
    case ToInsert =>
      if q.leading.Some? && q.leading.value.stage.Inserting? && q.leading.value.inserted < |q.leading.value.ops| {
        q.InsertNext();
      }
  }

  lemma InStepIsOk(m: Meaning, q: WriteQueue, db: Db.DB)
    requires InStep(m, q, db)
    ensures SummaryOk(Now(q)) && q.writers == Waiting(Now(q))
    ensures q.leading.Some? ==> q.leading.value.count <= |q.writers| && q.leading.value.ops == GroupOps(Now(q))
  {
    hide WriteQueue.Valid, Db.DB.Valid, Together, OpsOf, SummaryOk;
    SummaryIsOk(q);
    q.QueueParts();
  }

  method SwitchStep(m: Meaning, q: WriteQueue, db: Db.DB)
    requires InStep(m, q, db)
    modifies q`mem, q`imm, q`log, q`oldLog, q`syncedBytes, q`spread, db`mem, db`imm, db`nextFileNumber
    ensures InStep(m, q, db) && (q.log == old(q.log) || fresh(q.log)) && (old(Durably(q, db)) ==> Durably(q, db))
    ensures WriterMoves(m, db.options, db.fileSize, old(BothNow(q, db)), ToSwitch, BothNow(q, db))
  {
    hide InStep, TablesRead, WriteQueue.Valid, Db.DB.Valid, SummaryOk, OpsOf, Stops, Runs.Moves, SpreadOk;
    InStepIsOk(m, q, db);
    if q.leading.None? && q.imm.None? && q.writers != [] {
      SwitchBoth(m, q, db);
    }
  }

  method FinishStep(m: Meaning, q: WriteQueue, db: Db.DB)
    requires InStep(m, q, db)
    modifies q`leading, q`writers, q`lastSequence, q`acked, db`mem, db`lastSequence, db`writes
    ensures InStep(m, q, db) && (q.log == old(q.log) || fresh(q.log)) && (old(Durably(q, db)) ==> Durably(q, db))
    ensures WriterMoves(m, db.options, db.fileSize, old(BothNow(q, db)), ToFinish, BothNow(q, db))
  {
    hide InStep, TablesRead, WriteQueue.Valid, Db.DB.Valid, SummaryOk, OpsOf, Stops, Runs.Moves, SpreadOk;
    InStepIsOk(m, q, db);
    if q.leading.Some? && q.leading.value.stage.Inserting? && q.leading.value.inserted == |q.leading.value.ops| {
      FinishBoth(m, q, db);
    }
  }

  method FlushStep(m: Meaning, q: WriteQueue, db: Db.DB)
    requires InStep(m, q, db)
    modifies q`imm, q`oldLog, q`stored, q`spread,
             db`imm, db`tables, db`version, db`nextFileNumber, db`seekFile, db`allowedSeeks,
             db`compactPointer, db`running, db`merged, db`alone
    ensures InStep(m, q, db) && (q.log == old(q.log) || fresh(q.log)) && (old(Durably(q, db)) ==> Durably(q, db))
    ensures db.snapshots == [] ==> db.alone == old(db.alone)
    ensures WriterMoves(m, db.options, db.fileSize, old(BothNow(q, db)), ToFlush, BothNow(q, db))
  {
    hide InStep, TablesRead, WriteQueue.Valid, Db.DB.Valid, SummaryOk, OpsOf, Stops, Runs.Moves, SpreadOk;
    InStepIsOk(m, q, db);
    if q.imm.Some? && db.running.None? {
      BackgroundBoth(m, q, db, None);
    }
  }

  method LeadStep(m: Meaning, q: WriteQueue, db: Db.DB)
    requires InStep(m, q, db)
    modifies q`leading, q`mem, q`imm, q`log, q`oldLog, q`syncedBytes, q`spread, q`writers, q`acked, q.log, q`logged,
             db`mem, db`imm, db`nextFileNumber
    ensures InStep(m, q, db) && (q.log == old(q.log) || fresh(q.log)) && (old(Durably(q, db)) ==> Durably(q, db))
    ensures WriterMoves(m, db.options, db.fileSize, old(BothNow(q, db)), ToLead, BothNow(q, db))
  {
    hide InStep, TablesRead, WriteQueue.Valid, Db.DB.Valid, SummaryOk, OpsOf, Stops, Runs.Moves, SpreadOk;
    InStepIsOk(m, q, db);
    if q.leading.None? && q.imm.None? && q.writers != [] && q.writers[0].batch.None? {
      ForceBoth(m, q, db);
    } else {
      LeaderStep(m, q, db, ToLead);
    }
  }

  /** A move of the queue that the database does not notice. */
  lemma NothingMeant(m: Meaning, options: Options, fileSize: seq<Entry> -> nat, s: Both, move: Move)
    requires SummaryOk(s.queue) && (move.ToArrive? || move.ToLog? || move.ToSync? || move.ToInsert?)
    ensures WriterMoves(m, options, fileSize, s, move, Both(Next(s.queue, move), s.db))
  {
    hide OpsOf, SpreadOk;
  }

  /** A step that the database does not notice. */
  method QuietStep(m: Meaning, q: WriteQueue, db: Db.DB, move: Move)
    requires InStep(m, q, db) && (move.ToArrive? || move.ToLog? || move.ToSync? || move.ToInsert?)
    modifies q`writers, q`arrived, q`leading, q`logged, q`mem, q`syncedBytes, q`spread, q.log
    ensures InStep(m, q, db) && (old(Durably(q, db)) ==> Durably(q, db))
    ensures WriterMoves(m, db.options, db.fileSize, old(BothNow(q, db)), move, BothNow(q, db))
  {
    hide InStep, TablesRead, WriteQueue.Valid, Db.DB.Valid, SummaryOk, WriterMoves, Next;
    ghost var s := BothNow(q, db);
    if move.ToArrive? {
      ArriveBoth(m, q, db, move.w);
    } else {
      LeaderStep(m, q, db, move);
    }
    NothingMeant(m, db.options, db.fileSize, s, move);
  }

  /** One step of a writing thread, or nothing if it is not possible. */
  method WriterStep(m: Meaning, q: WriteQueue, db: Db.DB, move: Move)
    requires InStep(m, q, db)
    modifies q, q.log, db
    ensures InStep(m, q, db) && (q.log == old(q.log) || fresh(q.log))
    ensures old(Durably(q, db)) ==> Durably(q, db)
    ensures db.alone == old(db.alone) || db.snapshots != []
    ensures db.snapshots == old(db.snapshots)
    ensures WriterMoves(m, db.options, db.fileSize, old(BothNow(q, db)), move, BothNow(q, db))
  {
    hide *;
    match move
    case ToSwitch => SwitchStep(m, q, db);
    case ToFinish => FinishStep(m, q, db);
    case ToFlush => FlushStep(m, q, db);
    case ToLead => LeadStep(m, q, db);
    case _ => QuietStep(m, q, db, move);
  }

  /** A step of a reader. */
  method ReaderStep(m: Meaning, q: WriteQueue, db: Db.DB, e: Event) returns (answer: Option<Value>)
    requires InStep(m, q, db) && (e.Lookup? || e.TakeSnapshot? || e.DropSnapshot?)
    modifies db`snapshots, db`seekFile, db`allowedSeeks
    ensures InStep(m, q, db)
    ensures old(db.snapshots) == [] && !e.TakeSnapshot? ==> db.snapshots == []
    ensures e.Lookup? && (e.snapshot.Some? ==> e.snapshot.value < |db.snapshots|) && db.safe ==>
              answer == ReadAt(db.writes, e.key, db.ReadSequence(e.snapshot))
    ensures Happens(m, db.options, db.fileSize, old(BothNow(q, db)), e, BothNow(q, db))
  {
    hide Together, WriteQueue.Valid, Db.DB.Valid, ReadAt, WriterMoves, Db.AfterCharge, StoreCharge, Read, Store.Entries;
    answer := None;
    match e
    case Lookup(k, snapshot) =>
      if snapshot.None? || snapshot.value < |db.snapshots| {
        answer := db.Get(k, snapshot);
      }
    case TakeSnapshot => var s := db.GetSnapshot();
    case DropSnapshot(i) =>
      if i < |db.snapshots| {
        db.ReleaseSnapshot(i);
      }
  }

  method BackgroundStep(m: Meaning, q: WriteQueue, db: Db.DB, manual: Option<Db.Manual>)
    requires InStep(m, q, db)
    modifies q`imm, q`oldLog, q`stored, q`spread,
             db`imm, db`tables, db`version, db`nextFileNumber, db`seekFile, db`allowedSeeks,
             db`compactPointer, db`running, db`merged, db`alone
    ensures InStep(m, q, db) && (old(Durably(q, db)) ==> Durably(q, db))
    ensures db.snapshots == [] ==> db.alone == old(db.alone)
    ensures Happens(m, db.options, db.fileSize, old(BothNow(q, db)), Background(manual), BothNow(q, db))
  {
    hide InStep, TablesRead, SummaryOk, Next, Db.Round;
    InStepIsOk(m, q, db);
    if db.running.None? && (manual.None? || manual.value.level + 1 < NUM_LEVELS) {
      BackgroundBoth(m, q, db, manual);
    }
  }

  method InstallStep(m: Meaning, q: WriteQueue, db: Db.DB)
    requires InStep(m, q, db)
    modifies db`running, db`tables, db`version, db`nextFileNumber, db`seekFile, db`allowedSeeks, db`safe
    ensures InStep(m, q, db) && (old(Durably(q, db) && db.alone) ==> Durably(q, db))
    ensures Happens(m, db.options, db.fileSize, old(BothNow(q, db)), Install, BothNow(q, db))
  {
    hide InStep, TablesRead, Db.Installs, SafeOnDisk;
    if db.running.Some? {
      InstallBoth(m, q, db);
    }
  }

  /** One event, or nothing if it is not possible. */
  method Happen(m: Meaning, q: WriteQueue, db: Db.DB, e: Event) returns (answer: Option<Value>)
    requires InStep(m, q, db)
    modifies q, q.log, db
    ensures InStep(m, q, db) && (q.log == old(q.log) || fresh(q.log))
    ensures old(Durably(q, db)) && (e.Install? ==> old(db.alone)) ==> Durably(q, db)
    ensures old(db.snapshots) == [] ==> db.alone == old(db.alone)
    ensures old(db.snapshots) == [] && !e.TakeSnapshot? ==> db.snapshots == []
    ensures e.Lookup? && (e.snapshot.Some? ==> e.snapshot.value < |db.snapshots|) && db.safe ==>
              answer == ReadAt(db.writes, e.key, db.ReadSequence(e.snapshot))
    ensures Happens(m, db.options, db.fileSize, old(BothNow(q, db)), e, BothNow(q, db))
  {
    hide *;
    answer := None;
    match e
    case ByWriter(move) =>
      ghost var s := BothNow(q, db);
      WriterStep(m, q, db, move);
      WriterHappens(m, db.options, db.fileSize, s, move, BothNow(q, db));
    case Background(manual) => BackgroundStep(m, q, db, manual);
    case Install => InstallStep(m, q, db);
    case _ => answer := ReaderStep(m, q, db, e);
  }

  lemma WriterHappens(m: Meaning, options: Options, fileSize: seq<Entry> -> nat, s: Both, move: Move, t: Both)
    requires WriterMoves(m, options, fileSize, s, move, t)
    ensures Happens(m, options, fileSize, s, ByWriter(move), t)
  {
    hide WriterMoves;
  }

  lemma BothStart(m: Meaning, q: WriteQueue, db: Db.DB)
    requires q.Valid() && db.Valid() && Now(q) == START && q.lastSequence == 0 && q.stored == [] && q.imm.None?
    requires db.Now() == Db.NewState() && db.writes == []
    ensures InStep(m, q, db) && Durably(q, db) && BothNow(q, db) == Both(START, Db.NewState()) && db.snapshots == []
  {
    hide WriteQueue.Valid, Db.DB.Valid, Together, TablesRead;
    TogetherStart(m);
  }

  /** Whatever the order of events, queue and database stay together; if no snapshot is
      taken, the tables alone always read as the writes stored in them.  The states between
      the events follow each other as the events say. */
  method RunBoth(m: Meaning, step: CrcStep, options: Options, fileSize: seq<Entry> -> nat, events: seq<Event>)
    returns (q: WriteQueue, db: Db.DB, ghost trace: seq<Both>)
    ensures fresh(q) && fresh(q.log) && fresh(db) && InStep(m, q, db)
    ensures |trace| == |events| + 1 && trace[0] == Both(START, Db.NewState()) && trace[|events|] == BothNow(q, db)
    ensures forall i :: 0 <= i < |events| ==> Happens(m, options, fileSize, trace[i], events[i], trace[i + 1])
    ensures (forall i :: 0 <= i < |events| ==> !events[i].TakeSnapshot?) ==> db.alone && Durably(q, db)
  {
    hide InStep, TablesRead, WriteQueue.Valid, Db.DB.Valid, Happens;
    q := new WriteQueue(step);
    db := new Db.DB(options, fileSize);
    BothStart(m, q, db);
    trace := [Both(START, Db.NewState())];
    ghost var quiet := forall i :: 0 <= i < |events| ==> !events[i].TakeSnapshot?;
    for i := 0 to |events|
      invariant fresh(q) && fresh(q.log) && fresh(db) && InStep(m, q, db)
      invariant quiet ==> db.alone && db.snapshots == [] && Durably(q, db)
      invariant db.options == options && db.fileSize == fileSize
      invariant |trace| == i + 1 && trace[0] == Both(START, Db.NewState()) && trace[i] == BothNow(q, db)
      invariant forall j :: 0 <= j < i ==> Happens(m, options, fileSize, trace[j], events[j], trace[j + 1])
    {
      var answer := Happen(m, q, db, events[i]);
      trace := trace + [BothNow(q, db)];
    }
  }
}
