/** Recovery after a crash: replaying a write log that was cut short anywhere gives the
    state after a prefix of the logged batches. */
module Recovery {
  import opened Keys
  import opened History
  import opened Coding
  import opened Logs
  import opened Batches
  import Db

  // ------------------------------------------------------------------ how much of a log is there

  /** How many records lie wholly within the first n bytes. */
  function Complete(step: CrcStep, records: seq<Bytes>, pos: nat, n: nat): (k: nat)
    ensures k <= |records|
    decreases |records|
  {
    if records == [] then 0 else
    var end := pos + |Fragments(step, records[0], pos, true)|;
    if end > n then 0 else 1 + Complete(step, records[1..], end, n)
  }

  /** The complete records are the longest prefix whose bytes fit. */
  lemma {:induction false} CompleteIff(step: CrcStep, records: seq<Bytes>, pos: nat, n: nat, k: nat)
    requires pos <= n && k <= |records|
    ensures k <= Complete(step, records, pos, n) <==> pos + |LogFrom(step, records[..k], pos)| <= n
    decreases |records|
  {
    hide Fragments;
    if k > 0 {
      var first := Fragments(step, records[0], pos, true);
      var end := pos + |first|;
      assert records[..k][1..] == records[1..][..k - 1];
      assert |LogFrom(step, records[..k], pos)| == |first| + |LogFrom(step, records[1..][..k - 1], end)|;
      if end <= n {
        CompleteIff(step, records[1..], end, n, k - 1);
      }
    }
  }

  // ------------------------------------------------------------------ replaying batches

  /** A batch as it was logged. */
  datatype Logged = Logged(sequence: nat, ops: seq<BatchOp>)

  predicate LoggedOk(b: Logged) {
    1 <= b.sequence < LONG && b.sequence + |b.ops| <= LONG && OpsFit(b.ops)
  }

  ghost predicate AllLogged(bs: seq<Logged>) {
    forall i :: 0 <= i < |bs| ==> LoggedOk(bs[i])
  }

  function Reps(bs: seq<Logged>): (r: seq<Bytes>)
    requires AllLogged(bs)
    ensures |r| == |bs| && forall i :: 0 <= i < |bs| ==> LoggedOk(bs[i]) && r[i] == Rep(bs[i].sequence, bs[i].ops)
  {
    seq(|bs|, i requires 0 <= i < |bs| && LoggedOk(bs[i]) => Rep(bs[i].sequence, bs[i].ops))
  }

  /** One call of MemTable::Add. */
  datatype Add = Add(sequence: nat, op: BatchOp)

  function AddsOf(sequence: nat, ops: seq<BatchOp>): (r: seq<Add>)
    ensures |r| == |ops|
  {
    seq(|ops|, i requires 0 <= i < |ops| => Add(sequence + i, ops[i]))
  }

  function AllAdds(bs: seq<Logged>): seq<Add> {
    if bs == [] then [] else AllAdds(bs[..|bs| - 1]) + AddsOf(bs[|bs| - 1].sequence, bs[|bs| - 1].ops)
  }

  /** The largest sequence number that the batches use, or 0. */
  function MaxSequence(bs: seq<Logged>): nat {
    if bs == [] then 0 else
    var rest, b := MaxSequence(bs[..|bs| - 1]), bs[|bs| - 1];
    if b.sequence + |b.ops| > rest + 1 then b.sequence + |b.ops| - 1 else rest
  }

  /** WriteBatchInternal::InsertInto: the operations of a stored batch go to the
      memtable under consecutive sequence numbers. */
  method InsertInto(rep: Bytes) returns (status: Status, adds: seq<Add>)
    requires |rep| >= BATCH_HEADER
    ensures adds == AddsOf(FromFixed(rep[..8]), ParseOps(rep[12..]).0)
    ensures status == Fine <==> ParseOps(rep[12..]).1 && FromFixed(rep[8..12]) == |adds|
  {
    hide ParseOps;
    var ops;
    status, ops := Iterate(rep);
    adds := AddsOf(FromFixed(rep[..8]), ops);
  }

  /** What replaying the first k batches of the log has done. */
  ghost predicate Replayed(bs: seq<Logged>, k: nat, adds: seq<Add>, maxSequence: nat) {
    k <= |bs| && adds == AllAdds(bs[..k]) && maxSequence == MaxSequence(bs[..k])
  }

  /** The reader stands after the first k records, and the file goes on as the log does. */
  ghost predicate Standing(step: CrcStep, file: Bytes, records: seq<Bytes>, k: nat, pos: nat) {
    && k <= |records| && pos <= |file|
    && Agrees(file, pos, LogFrom(step, records[k..], pos))
    && |file| <= pos + |LogFrom(step, records[k..], pos)|
    && Complete(step, records, 0, |file|) == k + Complete(step, records[k..], pos, |file|)
  }

  lemma StandingStart(step: CrcStep, file: Bytes, records: seq<Bytes>)
    requires file <= LogFrom(step, records, 0)
    ensures Standing(step, file, records, 0, 0)
  {
    assert records[0..] == records;
  }

  /** What the reader expects next: the next record, or anything once there is none. */
  lemma StandingNext(step: CrcStep, file: Bytes, records: seq<Bytes>, k: nat, pos: nat, data: Bytes)
    requires Standing(step, file, records, k, pos) && (k < |records| ==> data == records[k])
    ensures Agrees(file, pos, Fragments(step, data, pos, true))
    ensures var end := pos + |Fragments(step, data, pos, true)|;
            if end <= |file| then k < |records| && Standing(step, file, records, k + 1, end)
            else k == Complete(step, records, 0, |file|)
  {
    hide Fragments, Agrees, LogFrom, Complete;
    var rest := records[k..];
    if k < |records| {
      assert rest[0] == data && rest[1..] == records[k + 1..];
      StandingSplit(step, file, rest, pos);
    } else {
      assert rest == [];
      NothingIn(step, pos, |file|);
      NothingLeft(file, pos, Fragments(step, data, pos, true));
    }
  }

  lemma StandingSplit(step: CrcStep, file: Bytes, rest: seq<Bytes>, pos: nat)
    requires rest != [] && Agrees(file, pos, LogFrom(step, rest, pos))
    ensures var first := Fragments(step, rest[0], pos, true);
            && Agrees(file, pos, first) && Agrees(file, pos + |first|, LogFrom(step, rest[1..], pos + |first|))
            && |LogFrom(step, rest, pos)| == |first| + |LogFrom(step, rest[1..], pos + |first|)|
            && Complete(step, rest, pos, |file|) ==
               if pos + |first| > |file| then 0 else 1 + Complete(step, rest[1..], pos + |first|, |file|)
  {
    hide Fragments, Agrees;
    var first := Fragments(step, rest[0], pos, true);
    AgreesSplit(file, pos, first, LogFrom(step, rest[1..], pos + |first|));
  }

  lemma NothingIn(step: CrcStep, pos: nat, n: nat)
    ensures LogFrom(step, [], pos) == [] && Complete(step, [], pos, n) == 0
  {
  }

  lemma NothingLeft(file: Bytes, pos: nat, e: Bytes)
    requires pos >= |file|
    ensures Agrees(file, pos, e)
  {
  }

  /** Replaying one more batch. */
  lemma ReplayedNext(bs: seq<Logged>, k: nat, adds: seq<Add>, maxSequence: nat)
    requires AllLogged(bs) && Replayed(bs, k, adds, maxSequence) && k < |bs|
    ensures var b := bs[k];
            var last := b.sequence + |b.ops| - 1;
            && ParseOps(EncodeOps(b.ops)) == (b.ops, true)
            && Replayed(bs, k + 1, adds + AddsOf(b.sequence, b.ops), if last > maxSequence then last else maxSequence)
  {
    hide ParseOps, EncodeOps, AddsOf;
    assert LoggedOk(bs[k]);
    ParseRoundTrip(bs[k].ops);
    assert bs[..k + 1][..k] == bs[..k] && bs[..k + 1][k] == bs[k];
  }

  /** The body of the loop: replays one record. */
  method ReplayRecord(record: Bytes, paranoid: bool, adds: seq<Add>, maxSequence: nat)
    returns (status: Status, adds': seq<Add>, maxSequence': nat)
    ensures adds <= adds'
    ensures forall b {:trigger Rep(b.sequence, b.ops)} :: LoggedOk(b) && record == Rep(b.sequence, b.ops) ==>
              var last := b.sequence + |b.ops| - 1;
              && status == Fine && adds' == adds + AddsOf(b.sequence, b.ops)
              && maxSequence' == if last > maxSequence then last else maxSequence
  {
    hide ParseOps, EncodeOps, Rep;
    adds', maxSequence' := adds, maxSequence;
    if |record| < BATCH_HEADER {
      return if paranoid then Corruption("log record too small") else Fine, adds', maxSequence';
    }
    forall b | LoggedOk(b) && record == Rep(b.sequence, b.ops)
      ensures ParseOps(record[12..]) == (b.ops, true)
    {
      ParseRoundTrip(b.ops);
    }
    var inserted, more := InsertInto(record);
    adds' := adds + more;
    status := if paranoid then inserted else Fine;
    if status == Fine {
      var last := (FromFixed(record[..8]) + FromFixed(record[8..12]) - 1) % LONG;
      maxSequence' := if last > maxSequence then last else maxSequence;
    }
  }

  /** The file is what a crash may leave of the log of some batches. */
  ghost predicate LogOf(step: CrcStep, file: Bytes, bs: seq<Logged>) {
    AllLogged(bs) && file <= LogFrom(step, Reps(bs), 0)
  }

  /** The first k batches are replayed, and the reader stands after them. */
  ghost predicate Reached(reader: LogReader, bs: seq<Logged>, k: nat, adds: seq<Add>, maxSequence: nat)
    reads reader
  {
    && LogOf(reader.step, reader.file, bs)
    && reader.Pos() >= 0
    && Standing(reader.step, reader.file, Reps(bs), k, reader.Pos())
    && Replayed(bs, k, adds, maxSequence)
  }

  /** One round of the loop. */
  method ReplayNext(reader: LogReader, paranoid: bool, adds: seq<Add>, maxSequence: nat, ghost bs: seq<Logged>, ghost k: nat)
    returns (more: bool, status: Status, adds': seq<Add>, maxSequence': nat)
    requires reader.Ok()
    modifies reader`buffer, reader`eof, reader`endOfBuffer, reader`reports
    ensures reader.Ok() && (more ==> reader.Pos() > old(reader.Pos()))
    ensures old(Reached(reader, bs, k, adds, maxSequence)) ==> status == Fine
    ensures old(Reached(reader, bs, k, adds, maxSequence)) && more ==> Reached(reader, bs, k + 1, adds', maxSequence')
    ensures old(Reached(reader, bs, k, adds, maxSequence)) && !more ==>
              k == Complete(reader.step, Reps(bs), 0, |reader.file|) && Replayed(bs, k, adds', maxSequence')
  {
    hide Vouched, Agrees, Fragments, LogFrom, Complete, Standing, Replayed, Rep, LogReader.Ok, AddsOf, LoggedOk, ParseOps, EncodeOps;
    ghost var fine := Reached(reader, bs, k, adds, maxSequence);
    ghost var data: Bytes := [];
    if fine {
      data := ExpectNext(reader.step, reader.file, bs, k, reader.Pos());
    }
    status, adds', maxSequence' := Fine, adds, maxSequence;
    var seen := reader.reports;
    var record := reader.ReadRecord(data);
    more := record.Some?;
    if paranoid && reader.reports > seen {
      status := Corruption("corrupted log");
    } else if more {
      if fine {
        ReplayedNext(bs, k, adds, maxSequence);
      }
      status, adds', maxSequence' := ReplayRecord(record.value, paranoid, adds, maxSequence);
    }
  }

  lemma ExpectNext(step: CrcStep, file: Bytes, bs: seq<Logged>, k: nat, pos: nat) returns (data: Bytes)
    requires AllLogged(bs) && Standing(step, file, Reps(bs), k, pos)
    ensures Agrees(file, pos, Fragments(step, data, pos, true))
    ensures var end := pos + |Fragments(step, data, pos, true)|;
            if end <= |file| then
              k < |bs| && Standing(step, file, Reps(bs), k + 1, end) && LoggedOk(bs[k]) && data == Rep(bs[k].sequence, bs[k].ops)
            else k == Complete(step, Reps(bs), 0, |file|)
  {
    hide Agrees, Fragments, Complete, LogFrom;
    data := if k < |bs| then Reps(bs)[k] else [];
    StandingNext(step, file, Reps(bs), k, pos, data);
  }

  /** DBImpl::RecoverLogFile: replays every record of a log.  Cut short after any number
      of bytes, the log of some batches replays as the batches wholly inside, in order,
      each once, with no error. */
  method RecoverLogFile(step: CrcStep, file: Bytes, paranoid: bool, ghost bs: seq<Logged>)
    returns (status: Status, adds: seq<Add>, maxSequence: nat)
    ensures LogOf(step, file, bs) ==>
              && status == Fine
              && Replayed(bs, Complete(step, Reps(bs), 0, |file|), adds, maxSequence)
  {
    hide Replayed, Standing, LogReader.Ok, Complete;
    var reader := new LogReader(step, file);
    status, adds, maxSequence := Fine, [], 0;
    ghost var k: nat := 0;
    if LogOf(step, file, bs) {
      StandingStart(step, file, Reps(bs));
      NothingReplayed(bs);
    }
    var more := true;
    reader.InFile();
    while more && status == Fine
      invariant reader.Ok() && fresh(reader) && reader.step == step && reader.file == file
      invariant reader.Pos() <= |file|
      invariant LogOf(step, file, bs) ==> status == Fine
      invariant LogOf(step, file, bs) && more ==> Reached(reader, bs, k, adds, maxSequence)
      invariant LogOf(step, file, bs) && !more ==>
                  Replayed(bs, Complete(step, Reps(bs), 0, |file|), adds, maxSequence)
      decreases more, |file| - reader.Pos()
    {
      more, status, adds, maxSequence := ReplayNext(reader, paranoid, adds, maxSequence, bs, k);
      reader.InFile();
      k := k + 1;
    }
  }

  lemma NothingReplayed(bs: seq<Logged>)
    ensures Replayed(bs, 0, [], 0)
  {
  }

  // ------------------------------------------------------------------ the recovered database

  /** What the byte strings of a batch mean in the database: the place of a key in the
      user's order, and a value. */
  datatype Meaning = Meaning(rank: Bytes -> UserKey, text: Bytes -> Value)

  function ToWrite(m: Meaning, op: BatchOp): Db.WriteOp {
    match op
    case PutOp(k, v) => Db.Put(m.rank(k), m.text(v))
    case DeleteOp(k) => Db.Delete(m.rank(k))
  }

  function ToWrites(m: Meaning, ops: seq<BatchOp>): (r: seq<Db.WriteOp>)
    ensures |r| == |ops|
  {
    seq(|ops|, i requires 0 <= i < |ops| => ToWrite(m, ops[i]))
  }

  /** The entries that the calls of MemTable::Add make. */
  function ToMemTable(m: Meaning, adds: seq<Add>): (r: seq<Entry>)
    requires forall i :: 0 <= i < |adds| ==> adds[i].sequence <= MAX_SEQUENCE
    ensures |r| == |adds|
    ensures forall i :: 0 <= i < |adds| ==> r[i] == Db.ToEntry(ToWrite(m, adds[i].op), adds[i].sequence)
  {
    seq(|adds|, i requires 0 <= i < |adds| => Db.ToEntry(ToWrite(m, adds[i].op), adds[i].sequence))
  }

  /** Each batch takes the sequence numbers that follow those of the one before, and the
      first batch those after `first`. */
  ghost predicate Follows(bs: seq<Logged>, first: nat) {
    forall i :: 0 <= i < |bs| ==> bs[i].sequence == first + |AllAdds(bs[..i])| + 1
  }

  ghost predicate Contiguous(bs: seq<Logged>) {
    Follows(bs, 0)
  }

  lemma {:induction false} AddsNumbered(bs: seq<Logged>, first: nat)
    requires Follows(bs, first)
    ensures forall i :: 0 <= i < |AllAdds(bs)| ==> AllAdds(bs)[i].sequence == first + i + 1
  {
    if bs != [] {
      var n := |bs| - 1;
      assert forall i :: 0 <= i < n ==> bs[..n][..i] == bs[..i];
      AddsNumbered(bs[..n], first);
    }
  }

  lemma {:induction false} AddsPrefix(bs: seq<Logged>, k: nat)
    requires k <= |bs|
    ensures AllAdds(bs[..k]) <= AllAdds(bs)
  {
    if k < |bs| {
      var n := |bs| - 1;
      AddsPrefix(bs[..n], k);
      assert bs[..n][..k] == bs[..k];
    } else {
      assert bs[..k] == bs;
    }
  }

  /** A batch that is written makes the entries that its log record replays. */
  lemma {:induction false} WriteIsLogged(m: Meaning, sequence: nat, ops: seq<BatchOp>)
    requires sequence + |ops| <= MAX_SEQUENCE + 1
    ensures forall i :: 0 <= i < |ops| ==> AddsOf(sequence, ops)[i].sequence <= MAX_SEQUENCE
    ensures Db.ToEntries(ToWrites(m, ops), sequence) == ToMemTable(m, AddsOf(sequence, ops))
    decreases |ops|
  {
    if ops != [] {
      var n := |ops| - 1;
      WriteIsLogged(m, sequence, ops[..n]);
      assert ToWrites(m, ops)[..n] == ToWrites(m, ops[..n]);
      assert AddsOf(sequence, ops)[..n] == AddsOf(sequence, ops[..n]);
    }
  }

  /** After a crash that left k batches of the log, every reader sees the map left by
      the writes of those batches, whatever was written later. */
  lemma RecoveredReads(m: Meaning, bs: seq<Logged>, k: nat, key: UserKey, s: nat)
    requires Contiguous(bs) && k <= |bs| && |AllAdds(bs)| <= MAX_SEQUENCE
    ensures forall i :: 0 <= i < |AllAdds(bs)| ==> AllAdds(bs)[i].sequence <= MAX_SEQUENCE
    ensures forall i :: 0 <= i < |AllAdds(bs[..k])| ==> AllAdds(bs[..k])[i].sequence <= MAX_SEQUENCE
    ensures var writes, mem, last := ToMemTable(m, AllAdds(bs)), ToMemTable(m, AllAdds(bs[..k])), |AllAdds(bs[..k])|;
            Read(AllOf(mem), key, s) == ReadAt(writes, key, if s < last then s else last)
  {
    AddsNumbered(bs, 0);
    AddsPrefix(bs, k);
    hide AllAdds;
    var writes, mem := ToMemTable(m, AllAdds(bs)), ToMemTable(m, AllAdds(bs[..k]));
    var last := |mem|;
    assert mem == writes[..last];
    ReplayIsRead(mem, key, s);
    assert ReadAt(mem, key, s) == ReadAt(writes, key, if s < last then s else last) by {
      if s < last {
        assert mem[..s] == writes[..s];
      } else {
        assert last < |writes| || writes == mem;
      }
    }
  }
}
