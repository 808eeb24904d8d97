/** Every interleaving of the threads in DBImpl::Write.  What a queue is follows from a short
    summary of it, and the summary moves as a transition function of its own says. */
module Interleavings {
  import opened Keys
  import opened Logs
  import opened Batches
  import opened Recovery
  import opened GroupCommit

  /** Which thread moves next: a new one, the front writer, the leader, or the background thread. */
  datatype Move = ToArrive(w: Writer) | ToSwitch | ToLead | ToLog | ToSync | ToInsert | ToFinish | ToFlush

  /** The size of the leader's group, and how far the leader has come with it. */
  datatype Group = Group(count: nat, stage: Stage, inserted: nat)

  /** All that settles what a queue is: the writers so far, how many of them have returned,
      the leader's group, the records logged, whether there is an immutable memtable, and
      where the records are. */
  datatype Summary = Summary(arrived: seq<Writer>, acked: nat, group: Option<Group>, logged: seq<Logged>, closed: bool, spread: Spread)

  ghost function Now(q: WriteQueue): Summary
    reads q`arrived, q`acked, q`leading, q`logged, q`imm, q`spread
  {
    Summary(q.arrived, q.acked,
            if q.leading.Some? then Some(Group(q.leading.value.count, q.leading.value.stage, q.leading.value.inserted)) else None,
            q.logged, q.imm.Some?, q.spread)
  }

  // ------------------------------------------------------------------ the transition function

  ghost predicate SummaryOk(s: Summary) {
    && s.acked <= |s.arrived| && SpreadOk(s.spread, s.logged) && (!s.closed ==> s.spread.from == s.spread.base)
    && (s.group.Some? ==> GroupOk(s.group.value, s.arrived[s.acked..]))
  }

  ghost predicate GroupOk(g: Group, waiting: seq<Writer>) {
    && 0 < g.count <= |waiting| && waiting[0].batch.Some? && g.inserted <= |OpsOf(waiting[..g.count])|
    && (g.stage.Syncing? ==> waiting[0].sync) && (!g.stage.Inserting? ==> g.inserted == 0)
  }

  function Waiting(s: Summary): seq<Writer>
    requires s.acked <= |s.arrived|
  {
    s.arrived[s.acked..]
  }

  /** The operations of the leader's group. */
  function GroupOps(s: Summary): seq<BatchOp>
    requires s.acked <= |s.arrived| && s.group.Some? && s.group.value.count <= |Waiting(s)|
  {
    OpsOf(Waiting(s)[..s.group.value.count])
  }

  /** How many writers from the front belong to the longest group, if the first n do. */
  function LongestGroup(waiting: seq<Writer>, n: nat): (count: nat)
    requires 0 < n <= |waiting|
    ensures n <= count <= |waiting|
    ensures forall i :: n <= i < count ==> !Stops(waiting, i)
    ensures count < |waiting| ==> Stops(waiting, count)
    decreases |waiting| - n
  {
    if n == |waiting| || Stops(waiting, n) then n else LongestGroup(waiting, n + 1)
  }

  /** A writer is accepted if its operations fit into a batch and there are numbers left. */
  predicate Accepts(arrived: seq<Writer>, w: Writer) {
    WriterFits(w) && |OpsOf(arrived)| + |BatchOf(w)| < MAX_SEQUENCE
  }

  /** The memtable and its log become the old ones. */
  function Switched(s: Summary): Summary {
    s.(closed := true, spread := Spread(s.spread.from, |s.logged|, s.spread.synced, 0))
  }

  predicate At(s: Summary, stage: Stage) {
    s.group.Some? && s.group.value.stage == stage
  }

  /** What a move makes of the summary; a move that is not possible leaves it alone. */
  function Next(s: Summary, move: Move): (r: Summary)
    requires SummaryOk(s)
    ensures SummaryOk(r)
  {
    hide OpsOf, Stops, WriterFits;
    match move
    case ToArrive(w) => if Accepts(s.arrived, w) then Arrived(s, w) else s
    case ToSwitch => if s.group.None? && !s.closed && Waiting(s) != [] then Switched(s) else s
    case ToLead =>
      if s.group.Some? || Waiting(s) == [] then s
      else if Waiting(s)[0].batch.Some? then s.(group := Some(Group(LongestGroup(Waiting(s), 1), Appending, 0)))
      else if !s.closed then Switched(s).(acked := s.acked + 1)
      else s
    case ToLog =>
      if At(s, Appending) then
        s.(logged := s.logged + [Logged(|OpsOf(s.arrived[..s.acked])| + 1, GroupOps(s))],
           group := Some(s.group.value.(stage := if Waiting(s)[0].sync then Syncing else Inserting)))
      else s
    case ToSync =>
      if At(s, Syncing) then
        s.(spread := s.spread.(synced := |s.logged| - s.spread.base), group := Some(s.group.value.(stage := Inserting)))
      else s
    case ToInsert =>
      if At(s, Inserting) && s.group.value.inserted < |GroupOps(s)| then
        s.(group := Some(s.group.value.(inserted := s.group.value.inserted + 1)))
      else s
    case ToFinish =>
      if At(s, Inserting) && s.group.value.inserted == |GroupOps(s)| then
        s.(acked := s.acked + s.group.value.count, group := None)
      else s
    case ToFlush =>
      if s.closed then s.(closed := false, spread := Spread(s.spread.base, s.spread.base, 0, s.spread.synced)) else s
  }

  /** A writer at the end of the queue leaves the group in front alone. */
  function Arrived(s: Summary, w: Writer): (r: Summary)
    requires SummaryOk(s)
    ensures SummaryOk(r) && Waiting(r) == Waiting(s) + [w]
  {
    hide OpsOf;
    var r := s.(arrived := s.arrived + [w]);
    assert Waiting(r) == Waiting(s) + [w];
    assert s.group.Some? ==> Waiting(r)[..s.group.value.count] == Waiting(s)[..s.group.value.count];
    r
  }

  const START := Summary([], 0, None, [], false, Spread(0, 0, 0, 0))

  /** What the moves make of a summary. */
  function After(s: Summary, moves: seq<Move>): (r: Summary)
    requires SummaryOk(s)
    ensures SummaryOk(r)
  {
    if moves == [] then s else Next(After(s, moves[..|moves| - 1]), moves[|moves| - 1])
  }

  lemma AfterMore(s: Summary, moves: seq<Move>, move: Move)
    requires SummaryOk(s)
    ensures After(s, moves + [move]) == Next(After(s, moves), move)
  {
    hide Next, SummaryOk;
    assert (moves + [move])[..|moves|] == moves;
  }

  lemma AfterNone(s: Summary)
    requires SummaryOk(s)
    ensures After(s, []) == s
  {
  }

  lemma {:induction false} AfterBoth(s: Summary, a: seq<Move>, b: seq<Move>)
    requires SummaryOk(s)
    ensures After(s, a + b) == After(After(s, a), b)
    decreases |b|
  {
    hide Next, SummaryOk, After;
    if b == [] {
      assert a + b == a;
      AfterNone(After(s, a));
    } else {
      var n := |b| - 1;
      AfterBoth(s, a, b[..n]);
      AfterMore(s, a + b[..n], b[n]);
      AfterMore(After(s, a), b[..n], b[n]);
      assert a + b[..n] + [b[n]] == a + b && b[..n] + [b[n]] == b;
    }
  }

  lemma StartOk()
    ensures SummaryOk(START)
  {
  }

  // ------------------------------------------------------------------ who has arrived

  /** The writers that the moves bring and that are accepted, in order. */
  function Accepted(moves: seq<Move>): seq<Writer> {
    if moves == [] then [] else
    var before, last := Accepted(moves[..|moves| - 1]), moves[|moves| - 1];
    if last.ToArrive? && Accepts(before, last.w) then before + [last.w] else before
  }

  lemma NextArrived(s: Summary, move: Move)
    requires SummaryOk(s)
    ensures Next(s, move).arrived == if move.ToArrive? && Accepts(s.arrived, move.w) then s.arrived + [move.w] else s.arrived
  {
    hide Accepts, LongestGroup, OpsOf;
  }

  lemma {:induction false} AllAccepted(moves: seq<Move>)
    ensures SummaryOk(START) && After(START, moves).arrived == Accepted(moves)
  {
    StartOk();
    hide Accepts, Next, SummaryOk;
    if moves != [] {
      var n := |moves| - 1;
      AllAccepted(moves[..n]);
      NextArrived(After(START, moves[..n]), moves[n]);
    }
  }

  // ------------------------------------------------------------------ every writer returns

  lemma AfterFirst(s: Summary, move: Move, moves: seq<Move>)
    requires SummaryOk(s)
    ensures After(s, [move] + moves) == After(Next(s, move), moves)
  {
    hide Next, SummaryOk, After;
    AfterBoth(s, [move], moves);
    AfterMore(s, [], move);
    AfterNone(s);
    assert [] + [move] == [move];
  }

  /** What the leader still has to do. */
  function LeaderWork(s: Summary): nat
    requires SummaryOk(s)
  {
    hide OpsOf;
    if s.group.None? then 0 else
    (match s.group.value.stage case Appending => 2 case Syncing => 1 case Inserting => 0) + |GroupOps(s)| - s.group.value.inserted
  }

  /** The leader's next move, which leaves it less to do. */
  lemma LeaderMoves(s: Summary) returns (move: Move)
    requires SummaryOk(s) && s.group.Some? && LeaderWork(s) > 0
    ensures !move.ToArrive?
    ensures var t := Next(s, move);
            && t.arrived == s.arrived && t.acked == s.acked && t.group.Some? && t.group.value.count == s.group.value.count
            && LeaderWork(t) < LeaderWork(s)
  {
    hide OpsOf, Accepts, LongestGroup, SpreadOk;
    move := match s.group.value.stage case Appending => ToLog case Syncing => ToSync case Inserting => ToInsert;
  }

  /** The leader finishes its group, and all writers of it return. */
  lemma {:induction false} GroupReturns(s: Summary) returns (moves: seq<Move>)
    requires SummaryOk(s) && s.group.Some?
    ensures forall i :: 0 <= i < |moves| ==> !moves[i].ToArrive?
    ensures var t := After(s, moves); t.group.None? && t.arrived == s.arrived && t.acked == s.acked + s.group.value.count
    decreases LeaderWork(s)
  {
    if LeaderWork(s) == 0 {
      moves := [ToFinish];
      LastMove(s);
    } else {
      var move := LeaderMoves(s);
      hide Next, SummaryOk, After, LeaderWork;
      var rest := GroupReturns(Next(s, move));
      moves := [move] + rest;
      AfterFirst(s, move, rest);
    }
  }

  lemma LastMove(s: Summary)
    requires SummaryOk(s) && s.group.Some? && LeaderWork(s) == 0
    ensures var t := After(s, [ToFinish]); t.group.None? && t.arrived == s.arrived && t.acked == s.acked + s.group.value.count
  {
    hide OpsOf, Accepts, LongestGroup, SpreadOk;
    AfterNone(s);
    assert [ToFinish][..0] == [];
  }

  /** With nobody leading, the front writer leads a group or returns; if it has to wait for the
      flush of the immutable memtable, that comes first. */
  lemma FrontMoves(s: Summary) returns (move: Move)
    requires SummaryOk(s) && s.group.None? && s.acked < |s.arrived|
    ensures !move.ToArrive?
    ensures var t := Next(s, move);
            && t.arrived == s.arrived
            && if t.group.Some? then t.acked == s.acked && 0 < t.group.value.count
               else t.acked == s.acked + 1 || (t.acked == s.acked && s.closed && !t.closed)
  {
    hide OpsOf, Accepts, SpreadOk, Stops;
    move := if Waiting(s)[0].batch.None? && s.closed then ToFlush else ToLead;
  }

  /** Wherever a run stands, it can go on without new writers until every writer has returned. */
  lemma {:induction false} EveryWriterReturns(s: Summary) returns (moves: seq<Move>)
    requires SummaryOk(s)
    ensures forall i :: 0 <= i < |moves| ==> !moves[i].ToArrive?
    ensures var t := After(s, moves); t.arrived == s.arrived && t.acked == |t.arrived| && t.group.None?
    decreases |s.arrived| - s.acked, if s.group.Some? then 0 else 1, s.closed
  {
    AcksInRange(s);
    hide SummaryOk, After, Next;
    if s.group.Some? {
      var first := GroupReturns(s);
      AcksInRange(After(s, first));
      var rest := EveryWriterReturns(After(s, first));
      moves := first + rest;
      AfterBoth(s, first, rest);
    } else if s.acked == |s.arrived| {
      moves := [];
      AfterNone(s);
    } else {
      var move := FrontMoves(s);
      AcksInRange(Next(s, move));
      var rest := EveryWriterReturns(Next(s, move));
      moves := [move] + rest;
      AfterFirst(s, move, rest);
    }
  }

  lemma AcksInRange(s: Summary)
    requires SummaryOk(s)
    ensures s.acked <= |s.arrived| && (s.group.Some? ==> 0 < s.group.value.count)
  {
  }

  // ------------------------------------------------------------------ what follows from the summary

  lemma SummaryIsOk(q: WriteQueue)
    requires q.Valid()
    ensures SummaryOk(Now(q)) && q.writers == Waiting(Now(q))
  {
    hide QueueOk, DiskOk, MemsOk, SyncOk, Eager, LogWriter.Ok, OpsOf;
    q.QueueParts();
    hide LeadingOk;
    LeadingIsOk(q.leading, q.writers, q.lastSequence);
  }

  lemma LeadingIsOk(leading: Option<Leading>, writers: seq<Writer>, lastSequence: nat)
    requires leading.Some? ==> LeadingOk(leading.value, writers, lastSequence)
    ensures leading.Some? ==> GroupOk(Group(leading.value.count, leading.value.stage, leading.value.inserted), writers)
  {
    hide OpsOf, OpsFit;
  }

  /** The summary settles everything else: who waits, what readers may see, what the leader
      works on, what is in the memtables and the tables, and the bytes of the logs. */
  lemma Determined(p: WriteQueue, q: WriteQueue)
    requires p.Valid() && q.Valid() && p.step == q.step && Now(p) == Now(q)
    ensures p.writers == q.writers && p.lastSequence == q.lastSequence && p.leading == q.leading
    ensures p.stored == q.stored && p.imm == q.imm && p.mem == q.mem
    ensures p.TheDisk() == q.TheDisk()
  {
    hide QueueOk, FilesOk, MemsOk, SyncOk, Eager, LogWriter.Ok, OpsOf;
    SummaryIsOk(p);
    SummaryIsOk(q);
    SameLeading(p, q);
    hide SummaryOk;
    SameInserted(p, q);
    SameTables(p.stored, p.Imm(), q.stored, q.Imm(), p.logged, p.spread, p.lastSequence);
    SameFiles(p.step, p.TheDisk(), q.TheDisk(), p.logged, p.spread);
    assert p.mem == p.Inserted()[|p.stored + p.Imm()|..] && q.mem == q.Inserted()[|q.stored + q.Imm()|..];
  }

  lemma SameLeading(p: WriteQueue, q: WriteQueue)
    requires p.Valid() && q.Valid() && Now(p) == Now(q) && p.writers == q.writers
    ensures p.leading == q.leading && p.lastSequence == q.lastSequence
  {
    hide QueueOk, FilesOk, MemsOk, SyncOk, Eager, LogWriter.Ok, OpsOf, OpsFit;
    p.QueueParts();
    q.QueueParts();
  }

  lemma SameInserted(p: WriteQueue, q: WriteQueue)
    requires p.Valid() && q.Valid() && p.leading == q.leading && p.arrived == q.arrived && p.acked == q.acked
    ensures p.Inserted() == q.Inserted()
  {
    hide FilesOk, MemsOk, SyncOk, Eager, LogWriter.Ok, OpsOf, PlaceOk, LogOk, AddsOf, LeadingOk, InMem;
  }

  lemma SameTables(stored: seq<Add>, imm: seq<Add>, stored': seq<Add>, imm': seq<Add>, logged: seq<Logged>, sp: Spread, last: nat)
    requires MemsOk(stored, imm, logged, sp, last) && MemsOk(stored', imm', logged, sp, last)
    ensures stored == stored' && imm == imm'
  {
    hide AllAdds;
    assert imm == (stored + imm)[|stored|..] && imm' == (stored' + imm')[|stored'|..];
  }

  lemma SameFiles(step: CrcStep, d: Disk, d': Disk, logged: seq<Logged>, sp: Spread)
    requires FilesOk(step, d, logged, sp) && FilesOk(step, d', logged, sp) && (d.closed.None? <==> d'.closed.None?)
    ensures d == d'
  {
    hide LogFrom, Reps, AllLogged;
  }

  // ------------------------------------------------------------------ moving

  /** One move, or nothing if it is not possible: the summary becomes what the transition
      function says. */
  method Take(q: WriteQueue, move: Move)
    requires q.Valid()
    modifies q, q.log
    ensures q.Valid() && (q.log == old(q.log) || fresh(q.log))
    ensures old(SummaryOk(Now(q))) && Now(q) == Next(old(Now(q)), move)
  {
    hide WriteQueue.Valid, WriterFits, OpsOf, Stops, SummaryOk;
    SummaryIsOk(q);
    q.QueueParts();
    match move
    case ToArrive(w) =>
      var fits := Fits(q, w);
      if fits {
        q.Arrive(w);
      }
    case ToSwitch =>
      if q.leading.None? && q.imm.None? && q.writers != [] {
        q.SwitchMemTable();
      }
    case ToLead =>
      if q.leading.None? && q.writers != [] {
        if q.writers[0].batch.Some? {
          ghost var waiting := q.writers;
          q.Lead();
          LongestIsOne(waiting, q.leading.value.count);
        } else if q.imm.None? {
          q.ForceSwitch();
        }
      }
    case ToLog =>
      if q.leading.Some? && q.leading.value.stage.Appending? {
        q.AppendLog();
      }
    case ToSync =>
      if q.leading.Some? && q.leading.value.stage.Syncing? {
        q.SyncLog();
      }
    case ToInsert =>
      if q.leading.Some? && q.leading.value.stage.Inserting? && q.leading.value.inserted < |q.leading.value.ops| {
        q.InsertNext();
      }
    case ToFinish =>
      if q.leading.Some? && q.leading.value.stage.Inserting? && q.leading.value.inserted == |q.leading.value.ops| {
        q.Finish();
      }
    case ToFlush =>
      if q.imm.Some? {
        q.FlushMemTable();
      }
  }

  /** A group that nothing stops before its end, and something stops there, is the longest. */
  lemma LongestIsOne(waiting: seq<Writer>, count: nat)
    requires 0 < count <= |waiting| && (forall i :: 0 < i < count ==> !Stops(waiting, i))
    requires count < |waiting| ==> Stops(waiting, count)
    ensures LongestGroup(waiting, 1) == count
  {
    hide Stops;
  }

  method Fits(q: WriteQueue, w: Writer) returns (fits: bool)
    requires q.Valid()
    ensures fits <==> Accepts(q.arrived, w)
  {
    hide QueueOk, FilesOk, MemsOk, SyncOk;
    q.ArrivedCount();
    fits := OpsFit(BatchOf(w)) && q.lastSequence + |OpsOf(q.writers)| + |BatchOf(w)| < MAX_SEQUENCE;
  }

  ghost predicate AllSync(moves: seq<Move>) {
    forall i :: 0 <= i < |moves| && moves[i].ToArrive? && moves[i].w.batch.Some? ==> moves[i].w.sync
  }

  lemma {:induction false} SyncAccepted(moves: seq<Move>)
    requires AllSync(moves)
    ensures EverySync(Accepted(moves))
  {
    hide Accepts;
    if moves != [] {
      SyncAccepted(moves[..|moves| - 1]);
    }
  }

  /** Takes the moves in the given order, passing over those that are not possible.  The
      queue is the one that the transition function makes of the moves.  What is logged,
      what is inserted and what readers may see are the operations of the accepted writers
      in queue order, each once and under consecutive sequence numbers from 1. */
  method Interleave(step: CrcStep, moves: seq<Move>) returns (q: WriteQueue)
    ensures q.Valid() && fresh(q) && fresh(q.log) && q.step == step
    ensures SummaryOk(START) && Now(q) == After(START, moves) && q.arrived == Accepted(moves)
    ensures q.acked <= |q.arrived| && q.lastSequence == |OpsOf(q.arrived[..q.acked])|
    ensures AllAdds(q.logged) <= AddsOf(1, OpsOf(q.arrived)) && q.lastSequence <= |AllAdds(q.logged)|
    ensures q.Inserted() <= AddsOf(1, OpsOf(q.arrived)) && q.lastSequence <= |q.Inserted()|
    ensures q.Inserted()[..q.lastSequence] == AddsOf(1, OpsOf(q.arrived[..q.acked]))
    ensures q.leading.None? ==> q.Inserted() == AllAdds(q.logged) == AddsOf(1, OpsOf(q.arrived[..q.acked]))
    ensures SpreadOk(q.spread, q.logged) && (AllSync(moves) ==> NoGap(q.logged, q.spread))
  {
    hide WriteQueue.Valid, NoGap, AllAdds, AddsOf, OpsOf, SpreadOk, SummaryOk, Next, EverySync, Accepted;
    q := new WriteQueue(step);
    StartOk();
    for i := 0 to |moves|
      invariant q.Valid() && fresh(q) && fresh(q.log) && q.step == step
      invariant Now(q) == After(START, moves[..i])
    {
      assert moves[..i + 1] == moves[..i] + [moves[i]];
      AfterMore(START, moves[..i], moves[i]);
      Take(q, moves[i]);
    }
    assert moves[..|moves|] == moves;
    AllAccepted(moves);
    q.OnceInOrder();
    SpreadIsOk(q);
    if q.leading.None? {
      NothingPending(q);
    }
    if AllSync(moves) {
      SyncAccepted(moves);
      q.EverySyncIsPrefix();
    }
  }

  lemma SpreadIsOk(q: WriteQueue)
    requires q.Valid()
    ensures SpreadOk(q.spread, q.logged)
  {
    q.QueueParts();
  }

  /** Between groups all that was logged is inserted, and its writers have returned. */
  lemma NothingPending(q: WriteQueue)
    requires q.Valid() && q.leading.None?
    ensures q.acked <= |q.arrived| && q.Inserted() == AllAdds(q.logged) == AddsOf(1, OpsOf(q.arrived[..q.acked]))
  {
    hide FilesOk, MemsOk, SyncOk, Eager, LogWriter.Ok, OpsOf, AddsOf, AllAdds, AllLogged, Contiguous;
    assert q.acked <= |q.arrived|;
    var done := OpsOf(q.arrived[..q.acked]);
    assert done + [] == done;
  }

  /** Every run can be continued to one in which every accepted writer has returned, and
      readers see the operations of all of them. */
  lemma EveryRunCanEnd(moves: seq<Move>) returns (more: seq<Move>)
    ensures SummaryOk(START) && Accepted(moves + more) == Accepted(moves)
    ensures var t := After(START, moves + more); t.acked == |Accepted(moves)| && t.group.None?
  {
    hide SummaryOk, After, Next, Accepted;
    StartOk();
    AllAccepted(moves);
    more := EveryWriterReturns(After(START, moves));
    AfterBoth(START, moves, more);
    AllAccepted(moves + more);
  }

  // ------------------------------------------------------------------ a crash that leaves a gap

  const FIRST := Writer(Some([PutOp([1], [1])]), false)
  const SECOND := Writer(Some([PutOp([2], [2])]), true)

  /** A write that returns without a sync, a switch of the memtable, and a write that
      returns with a sync. */
  const GAP: seq<Move> := [
    ToArrive(FIRST), ToLead, ToLog, ToInsert, ToFinish,
    ToArrive(SECOND), ToSwitch, ToLead, ToLog, ToSync, ToInsert, ToFinish]

  /** A writer of one operation that is alone in the queue, once it leads. */
  lemma LeadsAlone(s: Summary, w: Writer)
    requires SummaryOk(s) && s.group.None? && s.acked + 1 == |s.arrived| && s.arrived[s.acked] == w
    requires w.batch.Some? && |w.batch.value| == 1
    ensures var t := s.(group := Some(Group(1, Appending, 0)));
            SummaryOk(t) && After(s, [ToLead]) == t && GroupOps(t) == w.batch.value
  {
    AfterFirst(s, ToLead, []);
    AfterNone(Next(s, ToLead));
    assert [ToLead] + [] == [ToLead];
    hide OpsOf, Stops, SpreadOk;
    assert Waiting(s) == [w] && Waiting(s)[..1] == [w];
    OneWriter(w);
  }

  /** The moves of a writer that is alone in the queue. */
  function MovesAlone(sync: bool): seq<Move> {
    [ToLead, ToLog] + (if sync then [ToSync] else []) + [ToInsert, ToFinish]
  }

  /** A writer that leads alone has its operation logged, and synced if it asks for that. */
  lemma LogsAlone(t: Summary, w: Writer) returns (u: Summary, v: Summary)
    requires SummaryOk(t) && t.group == Some(Group(1, Appending, 0)) && t.arrived[t.acked] == w
    ensures SpreadOk(t.spread, t.logged) && u == Next(t, ToLog) && v == (if w.sync then Next(u, ToSync) else u)
    ensures v == t.(logged := t.logged + [Logged(|OpsOf(t.arrived[..t.acked])| + 1, GroupOps(t))], group := Some(Group(1, Inserting, 0)),
                    spread := if w.sync then t.spread.(synced := |t.logged| + 1 - t.spread.base) else t.spread)
    ensures SummaryOk(u) && SummaryOk(v)
  {
    hide OpsOf, GroupOps;
    u := Next(t, ToLog);
    v := if w.sync then Next(u, ToSync) else u;
  }

  /** Its operation is logged, synced if it asks for that, and acknowledged. */
  lemma WritesAlone(s: Summary, w: Writer)
    requires SummaryOk(s) && s.group.None? && s.acked + 1 == |s.arrived| && s.arrived[s.acked] == w
    requires w.batch.Some? && |w.batch.value| == 1
    ensures SpreadOk(s.spread, s.logged)
    ensures After(s, MovesAlone(w.sync)) ==
              s.(acked := s.acked + 1, logged := s.logged + [Logged(|OpsOf(s.arrived[..s.acked])| + 1, w.batch.value)],
                 spread := if w.sync then s.spread.(synced := |s.logged| + 1 - s.spread.base) else s.spread)
  {
    hide Next, After, GroupOps, OpsOf, SummaryOk, GroupOk;
    LeadsAlone(s, w);
    var t := s.(group := Some(Group(1, Appending, 0)));
    var u, v := LogsAlone(t, w);
    AfterFirst(t, ToLog, if w.sync then [ToSync, ToInsert, ToFinish] else [ToInsert, ToFinish]);
    if w.sync {
      AfterFirst(u, ToSync, [ToInsert, ToFinish]);
      assert [ToSync] + [ToInsert, ToFinish] == [ToSync, ToInsert, ToFinish];
    }
    AfterBoth(s, [ToLead], [ToLog] + if w.sync then [ToSync, ToInsert, ToFinish] else [ToInsert, ToFinish]);
    assert MovesAlone(w.sync) == [ToLead] + ([ToLog] + if w.sync then [ToSync, ToInsert, ToFinish] else [ToInsert, ToFinish]);
    SameGroup(t, v);
    InsertsOne(v);
  }

  lemma SameGroup(t: Summary, v: Summary)
    requires SummaryOk(t) && SummaryOk(v) && t.arrived == v.arrived && t.acked == v.acked
    requires t.group.Some? && v.group.Some? && t.group.value.count == v.group.value.count
    ensures GroupOps(t) == GroupOps(v)
  {
  }

  lemma InsertsOne(s: Summary)
    requires SummaryOk(s) && At(s, Inserting) && s.group.value.inserted == 0 && |GroupOps(s)| == 1
    ensures After(s, [ToInsert, ToFinish]) == s.(acked := s.acked + s.group.value.count, group := None)
  {
    assert [ToInsert, ToFinish] == [ToInsert] + [ToFinish] && [ToFinish] + [] == [ToFinish];
    var t := Next(s, ToInsert);
    AfterFirst(s, ToInsert, [ToFinish]);
    AfterFirst(t, ToFinish, []);
    AfterNone(Next(t, ToFinish));
    SameGroup(s, t);
  }

  const ONE_WRITTEN := Summary([FIRST], 1, None, [Logged(1, FIRST.batch.value)], false, Spread(0, 0, 0, 0))
  const TWO_ARRIVED := Summary([FIRST, SECOND], 1, None, [Logged(1, FIRST.batch.value)], true, Spread(0, 1, 0, 0))
  const TWO_WRITTEN :=
    Summary([FIRST, SECOND], 2, None, [Logged(1, FIRST.batch.value), Logged(2, SECOND.batch.value)], true, Spread(0, 1, 0, 1))

  lemma FirstWritten()
    ensures SummaryOk(START) && After(START, [ToArrive(FIRST)] + MovesAlone(false)) == ONE_WRITTEN
  {
    StartOk();
    BothFit();
    AfterFirst(START, ToArrive(FIRST), MovesAlone(false));
    hide After, OpsOf, SpreadOk;
    assert OpsOf([]) == [] by { NoWriter(); }
    WritesAlone(Next(START, ToArrive(FIRST)), FIRST);
  }

  lemma NoWriter()
    ensures OpsOf([]) == []
  {
  }

  lemma SecondArrives()
    ensures SummaryOk(ONE_WRITTEN) && After(ONE_WRITTEN, [ToArrive(SECOND), ToSwitch]) == TWO_ARRIVED
  {
    BothFit();
    hide OpsOf;
    OneWriter(FIRST);
    var s := Next(ONE_WRITTEN, ToArrive(SECOND));
    AfterFirst(ONE_WRITTEN, ToArrive(SECOND), [ToSwitch]);
    AfterFirst(s, ToSwitch, []);
    AfterNone(Next(s, ToSwitch));
    assert [ToSwitch] + [] == [ToSwitch] && [ToArrive(SECOND)] + [ToSwitch] == [ToArrive(SECOND), ToSwitch];
  }

  lemma SecondWritten()
    ensures SummaryOk(TWO_ARRIVED) && After(TWO_ARRIVED, MovesAlone(true)) == TWO_WRITTEN
  {
    BothFit();
    hide OpsOf, After;
    assert TWO_ARRIVED.arrived[..1] == [FIRST];
    OneWriter(FIRST);
    WritesAlone(TWO_ARRIVED, SECOND);
  }

  lemma GapRun()
    ensures SummaryOk(START) && After(START, GAP) == TWO_WRITTEN
  {
    hide After, MovesAlone;
    FirstWritten();
    SecondArrives();
    SecondWritten();
    GapParts();
    AfterBoth(START, [ToArrive(FIRST)] + MovesAlone(false), [ToArrive(SECOND), ToSwitch] + MovesAlone(true));
    AfterBoth(ONE_WRITTEN, [ToArrive(SECOND), ToSwitch], MovesAlone(true));
  }

  lemma GapParts()
    ensures GAP == ([ToArrive(FIRST)] + MovesAlone(false)) + ([ToArrive(SECOND), ToSwitch] + MovesAlone(true))
  {
  }

  lemma BothFit()
    ensures WriterFits(FIRST) && WriterFits(SECOND) && MAX_SEQUENCE > 2
    ensures FIRST.batch.Some? && |FIRST.batch.value| == 1 && !FIRST.sync
    ensures SECOND.batch.Some? && |SECOND.batch.value| == 1 && SECOND.sync
  {
  }

  /** A crash after this run may keep the second write and lose the first. */
  method SecondWithoutFirst(step: CrcStep) returns (q: WriteQueue, ghost nOld: nat, ghost n: nat)
    ensures q.Valid() && q.arrived == Accepted(GAP) == [FIRST, SECOND] && q.acked == 2 && q.lastSequence == 2
    ensures MayLeave(q.TheDisk(), nOld, n) && FilesOk(step, q.TheDisk(), q.logged, q.spread)
    ensures Recovered(step, q.TheDisk(), q.stored, q.logged, q.spread, nOld, n) == [Add(2, PutOp([2], [2]))]
  {
    hide *;
    q := Interleave(step, GAP);
    GapRun();
    GapEnd(q);
    nOld, n := WorstCrash(step, q.TheDisk(), q.logged, q.spread);
    GapRecovered(step, q.TheDisk(), q.logged, nOld, n);
  }

  lemma GapEnd(q: WriteQueue)
    requires q.Valid() && Now(q) == TWO_WRITTEN
    ensures FilesOk(q.step, q.TheDisk(), q.logged, q.spread) && q.stored == [] && q.lastSequence == 2
    ensures q.arrived == [FIRST, SECOND] && q.acked == 2 && q.spread == Spread(0, 1, 0, 1)
    ensures q.logged == [Logged(1, FIRST.batch.value), Logged(2, SECOND.batch.value)]
  {
    hide QueueOk, FilesOk, SyncOk, LogWriter.Ok, Eager, OpsOf;
    q.QueueParts();
    assert q.logged[..0] == [];
    assert [FIRST, SECOND][..2] == [FIRST] + [SECOND];
    OpsConcat([FIRST], [SECOND]);
    OneWriter(FIRST);
    OneWriter(SECOND);
  }

  lemma GapRecovered(step: CrcStep, d: Disk, logged: seq<Logged>, nOld: nat, n: nat)
    requires logged == [Logged(1, FIRST.batch.value), Logged(2, SECOND.batch.value)] && FilesOk(step, d, logged, Spread(0, 1, 0, 1))
    requires LeftOld(step, d, logged, Spread(0, 1, 0, 1), nOld) == 0 && LeftOpen(step, d, logged, Spread(0, 1, 0, 1), n) == 1
    ensures Recovered(step, d, [], logged, Spread(0, 1, 0, 1), nOld, n) == [Add(2, PutOp([2], [2]))]
  {
    hide FilesOk, LeftOld, LeftOpen;
    assert logged[1..2] == [logged[1]] && [logged[1]][..0] == [];
  }
}
