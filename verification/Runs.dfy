/** Whole runs: any sequence of operations on the database answers like a plain map. */
module Runs {
  import opened Keys
  import opened History
  import opened Compactions
  import opened Files
  import opened Lsm
  import opened Reads
  import opened Stores
  import opened Db

  /** The database as its users think of it: one map, and a frozen map per snapshot. */
  datatype Plain = Plain(count: nat, current: map<UserKey, Value>, snapshots: seq<map<UserKey, Value>>)

  datatype Command =
    | Apply(batch: seq<WriteOp>)
    | Lookup(key: UserKey, snapshot: Option<nat>)
    | Sample(internalKey: InternalKey)
    | TakeSnapshot
    | DropSnapshot(i: nat)
    | NewMemTable
    | Background(manual: Option<Manual>)
    | Install

  function ApplyOp(m: map<UserKey, Value>, op: WriteOp): map<UserKey, Value> {
    match op
    case Put(k, v) => m[k := v]
    case Delete(k) => m - {k}
  }

  function ApplyBatch(m: map<UserKey, Value>, batch: seq<WriteOp>): map<UserKey, Value> {
    if batch == [] then m else ApplyOp(ApplyBatch(m, batch[..|batch| - 1]), batch[|batch| - 1])
  }

  predicate Fits(count: nat, batch: seq<WriteOp>) {
    count + |batch| < MAX_SEQUENCE
  }

  /** What a command does to the plain map; background work does nothing to it. */
  function PlainStep(p: Plain, c: Command): Plain {
    match c
    case Apply(batch) =>
      if Fits(p.count, batch) then p.(count := p.count + |batch|, current := ApplyBatch(p.current, batch)) else p
    case TakeSnapshot => p.(snapshots := p.snapshots + [p.current])
    case DropSnapshot(i) =>
      if i < |p.snapshots| then p.(snapshots := p.snapshots[..i] + p.snapshots[i + 1..]) else p
    case _ => p
  }

  /** What a command answers. */
  function PlainAnswer(p: Plain, c: Command): Option<Value> {
    if c.Lookup? && (c.snapshot.Some? ==> c.snapshot.value < |p.snapshots|) then
      var m := if c.snapshot.Some? then p.snapshots[c.snapshot.value] else p.current;
      if c.key in m then Some(m[c.key]) else None
    else None
  }

  function PlainRun(cs: seq<Command>): Plain {
    if cs == [] then Plain(0, map[], []) else PlainStep(PlainRun(cs[..|cs| - 1]), cs[|cs| - 1])
  }

  function PlainAnswers(cs: seq<Command>): seq<Option<Value>> {
    if cs == [] then [] else
    PlainAnswers(cs[..|cs| - 1]) + [PlainAnswer(PlainRun(cs[..|cs| - 1]), cs[|cs| - 1])]
  }

  lemma PlainRunMore(cs: seq<Command>, i: nat)
    requires i < |cs|
    ensures PlainRun(cs[..i + 1]) == PlainStep(PlainRun(cs[..i]), cs[i])
  {
    assert cs[..i + 1][..i] == cs[..i];
  }

  lemma PlainAnswersMore(cs: seq<Command>, i: nat)
    requires i < |cs|
    ensures PlainAnswers(cs[..i + 1]) == PlainAnswers(cs[..i]) + [PlainAnswer(PlainRun(cs[..i]), cs[i])]
  {
    assert cs[..i + 1][..i] == cs[..i];
  }

  lemma {:induction false} PlainAnswerAt(cs: seq<Command>, i: nat)
    requires i < |cs|
    ensures |PlainAnswers(cs)| == |cs| && PlainAnswers(cs)[i] == PlainAnswer(PlainRun(cs[..i]), cs[i])
    decreases |cs|
  {
    var n := |cs| - 1;
    if i < n {
      PlainAnswerAt(cs[..n], i);
      assert cs[..n][..i] == cs[..i];
    } else if n > 0 {
      PlainAnswerAt(cs[..n], 0);
    }
  }

  // ------------------------------------------------------------------ the map behind the writes

  /** The plain state describes the writes and the snapshots taken among them. */
  ghost predicate Describes(p: Plain, writes: seq<Entry>, snapshots: seq<SequenceNumber>) {
    && p.count == |writes|
    && p.current == Replay(writes)
    && |p.snapshots| == |snapshots|
    && forall i :: 0 <= i < |snapshots| ==> snapshots[i] <= |writes| && p.snapshots[i] == Replay(writes[..snapshots[i]])
  }

  /** The entries of a batch, replayed, do what the batch says. */
  lemma {:induction false} ReplayBatch(writes: seq<Entry>, batch: seq<WriteOp>)
    requires |writes| + |batch| < MAX_SEQUENCE
    ensures Replay(writes + ToEntries(batch, |writes| + 1)) == ApplyBatch(Replay(writes), batch)
  {
    var all := writes + ToEntries(batch, |writes| + 1);
    if batch == [] {
      assert all == writes;
    } else {
      var n := |batch| - 1;
      ReplayBatch(writes, batch[..n]);
      assert all[..|all| - 1] == writes + ToEntries(batch[..n], |writes| + 1);
      assert all[|all| - 1] == ToEntry(batch[n], |writes| + 1 + n);
    }
  }

  lemma WriteDescribed(p: Plain, writes: seq<Entry>, snapshots: seq<SequenceNumber>, batch: seq<WriteOp>)
    requires Describes(p, writes, snapshots) && Fits(|writes|, batch)
    ensures Describes(PlainStep(p, Apply(batch)), writes + ToEntries(batch, |writes| + 1), snapshots)
  {
    ReplayBatch(writes, batch);
    var all := writes + ToEntries(batch, |writes| + 1);
    forall i | 0 <= i < |snapshots|
      ensures all[..snapshots[i]] == writes[..snapshots[i]]
    {
    }
  }

  lemma ReadDescribed(p: Plain, writes: seq<Entry>, snapshots: seq<SequenceNumber>, k: UserKey, snapshot: Option<nat>, s: SequenceNumber)
    requires Describes(p, writes, snapshots) && (snapshot.Some? ==> snapshot.value < |snapshots|)
    requires s == if snapshot.Some? then snapshots[snapshot.value] else |writes|
    ensures ReadAt(writes, k, s) == PlainAnswer(p, Lookup(k, snapshot))
  {
    assert writes[..|writes|] == writes;
  }

  // ------------------------------------------------------------------ what a command does to the database

  /** A read, or the sample of one, charges a file. */
  ghost predicate Charges(s: State, charged: Option<SeekFile>, t: State) {
    && t == s.(seekFile := t.seekFile, allowedSeeks := t.allowedSeeks)
    && (t.seekFile, t.allowedSeeks) == AfterCharge(s.seekFile, s.allowedSeeks, charged)
  }

  /** The file a read charges. */
  function ReadCharge(s: State, k: UserKey, snapshot: Option<nat>): Option<SeekFile>
    requires snapshot.Some? ==> snapshot.value < |s.snapshots|
  {
    StoreCharge(Store(s.mem, s.imm, s.tables, s.version), k,
                if snapshot.Some? then s.snapshots[snapshot.value] else s.lastSequence)
  }

  /** The operations of the batch enter the memtable under the next sequence numbers. */
  ghost predicate Writes(s: State, batch: seq<WriteOp>, t: State)
    requires Fits(s.lastSequence, batch)
  {
    && t == s.(mem := t.mem, lastSequence := s.lastSequence + |batch|)
    && AllOf(t.mem) == AllOf(s.mem) + AllOf(ToEntries(batch, s.lastSequence + 1))
  }

  predicate CanStart(s: State, manual: Option<Manual>) {
    s.running.None? && (manual.None? || manual.value.level + 1 < NUM_LEVELS)
  }

  ghost predicate SomeRound(options: Options, fileSize: seq<Entry> -> nat, s: State, manual: Option<Manual>, t: State) {
    exists c :: Round(options, fileSize, s, manual, c, t)
  }

  /** What a command makes of the state; one that the database would make wait does nothing. */
  ghost predicate Moves(options: Options, fileSize: seq<Entry> -> nat, s: State, c: Command, t: State) {
    match c
    case Apply(batch) => if Fits(s.lastSequence, batch) then Writes(s, batch, t) else t == s
    case Lookup(k, snapshot) =>
      if snapshot.None? || snapshot.value < |s.snapshots| then Charges(s, ReadCharge(s, k, snapshot), t) else t == s
    case Sample(key) => Charges(s, ChargeFor(s.version, key), t)
    case TakeSnapshot => t == s.(snapshots := s.snapshots + [s.lastSequence])
    case DropSnapshot(i) =>
      t == if i < |s.snapshots| then s.(snapshots := s.snapshots[..i] + s.snapshots[i + 1..]) else s
    case NewMemTable =>
      t == if s.imm.None? then s.(mem := [], imm := Some(s.mem), nextFileNumber := s.nextFileNumber + 1) else s
    case Background(manual) => if CanStart(s, manual) then SomeRound(options, fileSize, s, manual, t) else t == s
    case Install => if s.running.Some? then Installs(fileSize, s, t) else t == s
  }

  lemma MovesApply(options: Options, fileSize: seq<Entry> -> nat, s: State, batch: seq<WriteOp>, t: State)
    requires Fits(s.lastSequence, batch) && Writes(s, batch, t)
    ensures Moves(options, fileSize, s, Apply(batch), t)
  {
    hide Writes, SomeRound, Installs, Charges;
  }

  lemma MovesSwitch(options: Options, fileSize: seq<Entry> -> nat, s: State, t: State)
    requires s.imm.None? && t == s.(mem := [], imm := Some(s.mem), nextFileNumber := s.nextFileNumber + 1)
    ensures Moves(options, fileSize, s, NewMemTable, t)
  {
  }

  lemma MovesRound(options: Options, fileSize: seq<Entry> -> nat, s: State, manual: Option<Manual>, c: Option<Inputs>, t: State)
    requires CanStart(s, manual) && Round(options, fileSize, s, manual, c, t)
    ensures Moves(options, fileSize, s, Background(manual), t)
  {
    hide Round;
    assert SomeRound(options, fileSize, s, manual, t);
  }

  lemma MovesInstall(options: Options, fileSize: seq<Entry> -> nat, s: State, t: State)
    requires s.running.Some? && Installs(fileSize, s, t)
    ensures Moves(options, fileSize, s, Install, t)
  {
    hide Installs;
  }

  // ------------------------------------------------------------------ running commands

  /** One command.  A command that the database would make wait is skipped. */
  method Step(db: DB, c: Command, ghost p: Plain) returns (answer: Option<Value>)
    requires db.Valid() && Describes(p, db.writes, db.snapshots)
    modifies db
    ensures db.Valid() && Describes(PlainStep(p, c), db.writes, db.snapshots)
    ensures Moves(db.options, db.fileSize, old(db.Now()), c, db.Now())
    ensures db.safe ==> old(db.safe) && answer == PlainAnswer(p, c)
    ensures old(db.alone) && (c.Background? ==> p.snapshots == []) ==> db.alone
  {
    hide DB.Valid, Describes, PlainAnswer, Moves;
    answer := None;
    match c
    case Apply(batch) => DoApply(db, batch, p);
    case Lookup(k, snapshot) => answer := DoLookup(db, k, snapshot, p);
    case Sample(key) => DoSample(db, key, p);
    case TakeSnapshot => DoTakeSnapshot(db, p);
    case DropSnapshot(i) => DoDropSnapshot(db, i, p);
    case NewMemTable => DoSwitch(db, p);
    case Background(manual) => DoBackground(db, manual, p);
    case Install => DoInstall(db, p);
  }

  method DoApply(db: DB, batch: seq<WriteOp>, ghost p: Plain)
    requires db.Valid() && Describes(p, db.writes, db.snapshots)
    modifies db`mem, db`lastSequence, db`writes
    ensures db.Valid() && Describes(PlainStep(p, Apply(batch)), db.writes, db.snapshots) && PlainAnswer(p, Apply(batch)) == None
    ensures Moves(db.options, db.fileSize, old(db.Now()), Apply(batch), db.Now())
  {
    hide DB.Valid, ApplyBatch, Replay, ToEntries, AllOf;
    Counted(db);
    if db.lastSequence + |batch| < MAX_SEQUENCE {
      WriteDescribed(p, db.writes, db.snapshots, batch);
      db.Write(batch);
    }
  }

  method DoLookup(db: DB, k: UserKey, snapshot: Option<nat>, ghost p: Plain) returns (answer: Option<Value>)
    requires db.Valid() && Describes(p, db.writes, db.snapshots)
    modifies db`seekFile, db`allowedSeeks
    ensures db.Valid() && Describes(p, db.writes, db.snapshots)
    ensures db.safe ==> answer == PlainAnswer(p, Lookup(k, snapshot))
    ensures Moves(db.options, db.fileSize, old(db.Now()), Lookup(k, snapshot), db.Now())
  {
    hide DB.Valid, ReadAt, Replay, AfterCharge, StoreCharge, Read, Store.Entries;
    Counted(db);
    answer := None;
    if snapshot.None? || snapshot.value < |db.snapshots| {
      ReadDescribed(p, db.writes, db.snapshots, k, snapshot, db.ReadSequence(snapshot));
      answer := db.Get(k, snapshot);
    }
  }

  method DoSample(db: DB, key: InternalKey, ghost p: Plain)
    requires db.Valid()
    modifies db`seekFile, db`allowedSeeks
    ensures db.Valid() && PlainStep(p, Sample(key)) == p && PlainAnswer(p, Sample(key)) == None
    ensures Moves(db.options, db.fileSize, old(db.Now()), Sample(key), db.Now())
  {
    hide DB.Valid, AfterCharge, ChargeFor;
    db.RecordReadSample(key);
  }

  method DoTakeSnapshot(db: DB, ghost p: Plain)
    requires db.Valid() && Describes(p, db.writes, db.snapshots)
    modifies db`snapshots
    ensures db.Valid() && Describes(PlainStep(p, TakeSnapshot), db.writes, db.snapshots) && PlainAnswer(p, TakeSnapshot) == None
    ensures Moves(db.options, db.fileSize, old(db.Now()), TakeSnapshot, db.Now())
  {
    hide DB.Valid, Replay;
    Counted(db);
    assert db.writes[..|db.writes|] == db.writes;
    var s := db.GetSnapshot();
  }

  method DoDropSnapshot(db: DB, i: nat, ghost p: Plain)
    requires db.Valid() && Describes(p, db.writes, db.snapshots)
    modifies db`snapshots
    ensures db.Valid() && Describes(PlainStep(p, DropSnapshot(i)), db.writes, db.snapshots)
    ensures PlainAnswer(p, DropSnapshot(i)) == None
    ensures Moves(db.options, db.fileSize, old(db.Now()), DropSnapshot(i), db.Now())
  {
    hide DB.Valid, Replay;
    if i < |db.snapshots| {
      db.ReleaseSnapshot(i);
    }
  }

  method DoSwitch(db: DB, ghost p: Plain)
    requires db.Valid()
    modifies db`mem, db`imm, db`nextFileNumber
    ensures db.Valid() && PlainStep(p, NewMemTable) == p && PlainAnswer(p, NewMemTable) == None
    ensures Moves(db.options, db.fileSize, old(db.Now()), NewMemTable, db.Now())
  {
    hide DB.Valid;
    if db.imm.None? {
      db.SwitchMemTable();
    }
  }

  method DoBackground(db: DB, manual: Option<Manual>, ghost p: Plain)
    requires db.Valid() && Describes(p, db.writes, db.snapshots)
    modifies db`imm, db`tables, db`version, db`nextFileNumber, db`seekFile, db`allowedSeeks,
             db`compactPointer, db`running, db`merged, db`alone
    ensures db.Valid() && PlainStep(p, Background(manual)) == p && PlainAnswer(p, Background(manual)) == None
    ensures Moves(db.options, db.fileSize, old(db.Now()), Background(manual), db.Now())
    ensures p.snapshots == [] ==> db.alone == old(db.alone)
  {
    hide DB.Valid, Replay, Round;
    if db.running.None? && (manual.None? || manual.value.level + 1 < NUM_LEVELS) {
      ghost var s := db.Now();
      ghost var c;
      var done;
      done, c := db.BackgroundCompaction(manual);
      MovesRound(db.options, db.fileSize, s, manual, c, db.Now());
    }
  }

  lemma InstallIsSilent(p: Plain)
    ensures PlainStep(p, Install) == p && PlainAnswer(p, Install) == None
  {
  }

  lemma NothingInstalls(options: Options, fileSize: seq<Entry> -> nat, s: State)
    requires s.running.None?
    ensures Moves(options, fileSize, s, Install, s)
  {
  }

  method DoInstall(db: DB, ghost p: Plain)
    requires db.Valid()
    modifies db`running, db`tables, db`version, db`nextFileNumber, db`seekFile, db`allowedSeeks, db`safe
    ensures db.Valid() && PlainStep(p, Install) == p && PlainAnswer(p, Install) == None
    ensures Moves(db.options, db.fileSize, old(db.Now()), Install, db.Now())
    ensures db.safe ==> old(db.safe)
  {
    hide DB.Valid, Installs, SameReads, Moves, PlainStep, PlainAnswer;
    InstallIsSilent(p);
    if db.running.Some? {
      ghost var s := db.Now();
      db.InstallCompactionResults();
      MovesInstall(db.options, db.fileSize, s, db.Now());
    } else {
      NothingInstalls(db.options, db.fileSize, db.Now());
    }
  }

  lemma Counted(db: DB)
    requires db.Valid()
    ensures |db.writes| == db.lastSequence
  {
  }

  lemma AloneIsSafe(db: DB)
    requires db.Valid()
    ensures db.alone ==> db.safe
  {
  }

  /** No snapshot is held when background work starts. */
  predicate Unobserved(cs: seq<Command>) {
    forall i :: 0 <= i < |cs| && cs[i].Background? ==> PlainRun(cs[..i]).snapshots == []
  }

  /** Whatever the order of writes, reads, snapshots, memtable switches, flushes, moves
      and compactions, the answers are those of the plain map if every compaction was
      safe; and every compaction is safe if none starts while a snapshot is held.  The
      states between the commands follow each other as the commands say. */
  method Run(options: Options, fileSize: seq<Entry> -> nat, cs: seq<Command>)
    returns (db: DB, answers: seq<Option<Value>>, ghost trace: seq<State>)
    ensures db.Valid() && |trace| == |cs| + 1 && trace[0] == NewState() && trace[|cs|] == db.Now()
    ensures forall i :: 0 <= i < |cs| ==> Moves(options, fileSize, trace[i], cs[i], trace[i + 1])
    ensures db.safe || Unobserved(cs) ==> answers == PlainAnswers(cs)
    ensures Unobserved(cs) ==> db.safe
    ensures Describes(PlainRun(cs), db.writes, db.snapshots)
  {
    hide *;
    NoCommands();
    db := new DB(options, fileSize);
    NothingDescribed();
    answers, trace := [], [NewState()];
    for i := 0 to |cs|
      invariant db.Valid() && Describes(PlainRun(cs[..i]), db.writes, db.snapshots)
      invariant db.safe ==> answers == PlainAnswers(cs[..i])
      invariant Unobserved(cs) ==> db.alone
      invariant fresh(db) && db.options == options && db.fileSize == fileSize
      invariant |trace| == i + 1 && trace[0] == NewState() && trace[i] == db.Now()
      invariant forall j :: 0 <= j < i ==> Moves(options, fileSize, trace[j], cs[j], trace[j + 1])
    {
      PlainRunMore(cs, i);
      PlainAnswersMore(cs, i);
      if Unobserved(cs) && cs[i].Background? {
        UnobservedAt(cs, i);
      }
      var answer := Step(db, cs[i], PlainRun(cs[..i]));
      answers, trace := answers + [answer], trace + [db.Now()];
    }
    assert cs[..|cs|] == cs;
    AloneIsSafe(db);
  }

  lemma NoCommands()
    ensures PlainRun([]) == Plain(0, map[], []) && PlainAnswers([]) == []
  {
  }

  lemma UnobservedAt(cs: seq<Command>, i: nat)
    requires Unobserved(cs) && i < |cs| && cs[i].Background?
    ensures PlainRun(cs[..i]).snapshots == []
  {
  }

  lemma NothingDescribed()
    ensures Describes(PlainRun([]), [], [])
  {
  }
}
