/** The write-ahead log: log_writer.cc cuts records into blocks, log_reader.cc puts them
    together again, also after a crash has cut the file short. */
module Logs {
  import opened Keys
  import opened Coding

  const BLOCK_SIZE := 32768
  const HEADER_SIZE := 7

  // ------------------------------------------------------------------ checksums

  type Word = w: nat | w < WORD

  /** One step of a checksum; the tables of crc32c.cc are one such step. */
  type CrcStep = (Word, Byte) -> Word

  function Extend(step: CrcStep, crc: Word, data: Bytes): Word
    decreases |data|
  {
    if data == [] then crc else Extend(step, step(crc, data[0]), data[1..])
  }

  /** A checksum can be extended piece by piece. */
  lemma {:induction false} ExtendConcat(step: CrcStep, crc: Word, a: Bytes, b: Bytes)
    ensures Extend(step, Extend(step, crc, a), b) == Extend(step, crc, a + b)
    decreases |a|
  {
    if a == [] {
      assert a + b == b;
    } else {
      ExtendConcat(step, step(crc, a[0]), a[1..], b);
      assert (a + b)[1..] == a[1..] + b;
    }
  }

  function Crc(step: CrcStep, data: Bytes): Word {
    Extend(step, 0, data)
  }

  const MASK_DELTA := 0xa282ead8

  /** Rotates right by 15 bits and adds a constant; the two halves share no bit, so
      their union is a sum. */
  function Mask(crc: Word): Word {
    (crc / 0x8000 + crc % 0x8000 * 0x2_0000 + MASK_DELTA) % WORD
  }

  function Unmask(masked: Word): Word {
    var rot := (masked - MASK_DELTA) % WORD;
    rot / 0x2_0000 + rot % 0x2_0000 * 0x8000
  }

  lemma UnmaskMask(w: Word)
    ensures Unmask(Mask(w)) == w
  {
    var hi, lo := w / 0x8000, w % 0x8000;
    var rot := hi + lo * 0x2_0000;
    assert (Mask(w) - MASK_DELTA) % WORD == rot;
    assert rot / 0x2_0000 == lo && rot % 0x2_0000 == hi;
  }

  lemma MaskUnmask(w: Word)
    ensures Mask(Unmask(w)) == w
  {
    var back := (w - MASK_DELTA) % WORD;
    var h, l := back / 0x2_0000, back % 0x2_0000;
    assert Unmask(w) / 0x8000 == l && Unmask(w) % 0x8000 == h;
    assert (back + MASK_DELTA) % WORD == w;
  }

  // ------------------------------------------------------------------ the format

  datatype RecordType = FullType | FirstType | MiddleType | LastType

  function Code(t: RecordType): (c: Byte)
    ensures 1 <= c <= 4
  {
    match t
    case FullType => 1
    case FirstType => 2
    case MiddleType => 3
    case LastType => 4
  }

  function TypeOf(begin: bool, end: bool): RecordType {
    if begin && end then FullType else if begin then FirstType else if end then LastType else MiddleType
  }

  function Zeros(n: nat): (r: Bytes)
    ensures |r| == n
  {
    seq(n, _ => 0)
  }

  /** The header of a physical record: checksum, length and type. */
  function Header(crc: Word, length: nat, code: Byte): (r: Bytes)
    requires length <= 0xffff
    ensures |r| == HEADER_SIZE && FromFixed(r[..4]) == Mask(crc)
    ensures (r[4] as int) + 256 * (r[5] as int) == length && r[6] == code
  {
    var low: Byte, high: Byte := length % 256, length / 256;
    EncodeFixed32(Mask(crc)) + [low, high, code]
  }

  /** A header and the payload; the checksum covers the type and the payload. */
  function Physical(step: CrcStep, t: RecordType, d: Bytes): (r: Bytes)
    requires |d| <= 0xffff
    ensures |r| == HEADER_SIZE + |d|
  {
    Header(Crc(step, [Code(t)] + d), |d|, Code(t)) + d
  }

  /** The zeros before the next record: the rest of a block too short for a header. */
  function Lead(pos: nat): (n: nat)
    ensures n < HEADER_SIZE && (pos + n) % BLOCK_SIZE <= BLOCK_SIZE - HEADER_SIZE
  {
    var leftover := BLOCK_SIZE - pos % BLOCK_SIZE;
    if leftover < HEADER_SIZE then leftover else 0
  }

  /** The payload that still fits into the block. */
  function Room(pos: nat): (n: nat)
    ensures n <= 0xffff
  {
    BLOCK_SIZE - (pos + Lead(pos)) % BLOCK_SIZE - HEADER_SIZE
  }

  /** A block without room is followed by an empty one. */
  lemma RoomFollows(pos: nat)
    requires Room(pos) == 0
    ensures Room(pos + Lead(pos) + HEADER_SIZE) > 0
  {
    assert (pos + Lead(pos) + HEADER_SIZE) % BLOCK_SIZE == 0;
  }

  function Taken(pos: nat, size: nat): (n: nat)
    ensures n <= size && n <= Room(pos)
  {
    if size < Room(pos) then size else Room(pos)
  }

  /** The bytes of the next physical record of the data, at a place in the file. */
  function Fragment(step: CrcStep, data: Bytes, pos: nat, begin: bool): (r: Bytes)
    ensures |r| == Lead(pos) + HEADER_SIZE + Taken(pos, |data|)
  {
    var n := Taken(pos, |data|);
    Zeros(Lead(pos)) + Physical(step, TypeOf(begin, n == |data|), data[..n])
  }

  /** The bytes of a whole record at a place in the file. */
  function Fragments(step: CrcStep, data: Bytes, pos: nat, begin: bool): (r: Bytes)
    ensures |r| >= HEADER_SIZE
    decreases |data|, if Taken(pos, |data|) == 0 then 1 else 0
  {
    var n, first := Taken(pos, |data|), Fragment(step, data, pos, begin);
    if n == |data| then first else if n == 0 then
      RoomFollows(pos);
      first + Fragments(step, data[n..], pos + |first|, false)
    else first + Fragments(step, data[n..], pos + |first|, false)
  }

  /** The bytes of a list of records from a place in the file on. */
  function LogFrom(step: CrcStep, records: seq<Bytes>, pos: nat): Bytes {
    if records == [] then [] else
    var first := Fragments(step, records[0], pos, true);
    first + LogFrom(step, records[1..], pos + |first|)
  }

  lemma {:induction false} LogAppend(step: CrcStep, records: seq<Bytes>, pos: nat, r: Bytes)
    ensures LogFrom(step, records + [r], pos) ==
            LogFrom(step, records, pos) + Fragments(step, r, pos + |LogFrom(step, records, pos)|, true)
    decreases |records|
  {
    hide Fragments;
    var all := records + [r];
    if records == [] {
      assert all[1..] == [];
    } else {
      var first := Fragments(step, records[0], pos, true);
      assert all[1..] == records[1..] + [r];
      LogAppend(step, records[1..], pos + |first|, r);
    }
  }

  // ------------------------------------------------------------------ the writer

  class LogWriter {
    const step: CrcStep
    var dest: Bytes
    var blockOffset: nat

    ghost predicate Ok()
      reads this
    {
      blockOffset <= BLOCK_SIZE && blockOffset % BLOCK_SIZE == |dest| % BLOCK_SIZE
    }

    constructor (step: CrcStep)
      ensures Ok() && dest == [] && this.step == step
    {
      this.step, dest, blockOffset := step, [], 0;
    }

    /** Cuts the record into fragments that do not cross a block; an empty record
        still takes one. */
    method AddRecord(slice: Bytes)
      requires Ok()
      modifies this
      ensures Ok() && dest == old(dest) + Fragments(step, slice, |old(dest)|, true)
    {
      hide Fragments, Fragment, Room, Lead, Ok;
      ghost var goal := dest + Fragments(step, slice, |dest|, true);
      var rest, begin, more := slice, true, true;
      while more
        invariant Ok()
        invariant goal == dest + if more then Fragments(step, rest, |dest|, begin) else []
        decreases more, |rest|, if Taken(|dest|, |rest|) == 0 then 1 else 0
      {
        ghost var at := |dest|;
        FragmentsStep(step, rest, at, begin);
        if |rest| > 0 && Taken(at, |rest|) == 0 {
          TakenFollows(at, |rest|);
        }
        rest := AddFragment(rest, begin);
        begin := false;
        more := |rest| > 0;
      }
    }

    /** One round of the loop: the next physical record, in a new block if need be. */
    method AddFragment(data: Bytes, begin: bool) returns (rest: Bytes)
      requires Ok()
      modifies this
      ensures Ok() && dest == old(dest) + Fragment(step, data, |old(dest)|, begin)
      ensures rest == data[Taken(|old(dest)|, |data|)..]
    {
      hide Physical;
      ghost var at := |dest|;
      var leftover := BLOCK_SIZE - blockOffset;
      if leftover < HEADER_SIZE {
        dest := dest + Zeros(leftover);
        blockOffset := 0;
      }
      assert dest == old(dest) + Zeros(Lead(at));
      var avail := BLOCK_SIZE - blockOffset - HEADER_SIZE;
      var length := if |data| < avail then |data| else avail;
      assert length == Taken(at, |data|);
      var end := |data| == length;
      EmitPhysicalRecord(TypeOf(begin, end), data[..length]);
      rest := data[length..];
    }

    method EmitPhysicalRecord(t: RecordType, d: Bytes)
      requires blockOffset + HEADER_SIZE + |d| <= BLOCK_SIZE && blockOffset % BLOCK_SIZE == |dest| % BLOCK_SIZE
      modifies this
      ensures dest == old(dest) + Physical(step, t, d)
      ensures blockOffset == old(blockOffset) + HEADER_SIZE + |d| && Ok()
    {
      var crc := Extend(step, Crc(step, [Code(t)]), d);
      ExtendConcat(step, 0, [Code(t)], d);
      hide Extend, Header;
      dest := dest + Header(crc, |d|, Code(t));
      dest := dest + d;
      SameOffset(blockOffset, |old(dest)|, HEADER_SIZE + |d|);
      blockOffset := blockOffset + HEADER_SIZE + |d|;
    }
  }

  lemma SameOffset(a: nat, b: nat, n: nat)
    requires a % BLOCK_SIZE == b % BLOCK_SIZE
    ensures (a + n) % BLOCK_SIZE == (b + n) % BLOCK_SIZE
  {
  }

  lemma TakenFollows(pos: nat, size: nat)
    requires size > 0 && Taken(pos, size) == 0
    ensures Taken(pos + Lead(pos) + HEADER_SIZE, size) > 0
  {
    RoomFollows(pos);
  }

  lemma FragmentsStep(step: CrcStep, data: Bytes, pos: nat, begin: bool)
    ensures var n := Taken(pos, |data|);
            && Fragment(step, data, pos, begin) == Zeros(Lead(pos)) + Physical(step, TypeOf(begin, n == |data|), data[..n])
            && Fragments(step, data, pos, begin) ==
               Fragment(step, data, pos, begin) +
               if n == |data| then []
               else Fragments(step, data[n..], pos + |Fragment(step, data, pos, begin)|, false)
  {
  }

  // ------------------------------------------------------------------ the reader

  /** As far as the file goes, it holds the bytes `e` from the place `pos` on. */
  ghost predicate Agrees(file: Bytes, pos: nat, e: Bytes) {
    forall i :: 0 <= i < |e| && pos + i < |file| ==> file[pos + i] == e[i]
  }

  lemma AgreesSplit(file: Bytes, pos: nat, a: Bytes, b: Bytes)
    ensures Agrees(file, pos, a + b) <==> Agrees(file, pos, a) && Agrees(file, pos + |a|, b)
  {
    var e := a + b;
    if Agrees(file, pos, e) {
      assert forall i :: 0 <= i < |a| ==> a[i] == e[i];
      forall i | 0 <= i < |b| && pos + |a| + i < |file|
        ensures file[pos + |a| + i] == b[i]
      {
        assert e[|a| + i] == b[i] && file[pos + (|a| + i)] == e[|a| + i];
      }
    }
    if Agrees(file, pos, a) && Agrees(file, pos + |a|, b) {
      forall i | 0 <= i < |e| && pos + i < |file|
        ensures file[pos + i] == e[i]
      {
        if i >= |a| {
          assert file[pos + |a| + (i - |a|)] == b[i - |a|];
        }
      }
    }
  }

  /** A physical record in a file: where it starts, its type and its data. */
  datatype Piece = Piece(at: nat, code: Byte, data: Bytes)

  /** The bytes of the file are those of the physical record, and its checksum holds. */
  ghost predicate Sound(step: CrcStep, file: Bytes, p: Piece) {
    && p.at + HEADER_SIZE + |p.data| <= |file|
    && file[p.at + 4] as nat + 256 * file[p.at + 5] as nat == |p.data|
    && file[p.at + 6] == p.code && file[p.at + 7..p.at + 7 + |p.data|] == p.data
    && FromFixed(file[p.at..p.at + 4]) == Mask(Crc(step, [p.code] + p.data))
  }

  function EndOf(p: Piece): nat {
    p.at + HEADER_SIZE + |p.data|
  }

  /** The data of the pieces, one after the other. */
  function DataOf(ps: seq<Piece>): Bytes {
    if ps == [] then [] else DataOf(ps[..|ps| - 1]) + ps[|ps| - 1].data
  }

  lemma DataMore(ps: seq<Piece>, p: Piece)
    ensures DataOf(ps + [p]) == DataOf(ps) + p.data
    ensures DataOf([p]) == p.data
  {
    assert (ps + [p])[..|ps|] == ps;
    assert [p][..0] == [];
  }

  /** Sound pieces, each of them right behind the one before it: a first one, and then only
      middle ones. */
  ghost predicate Begun(step: CrcStep, file: Bytes, from: nat, ps: seq<Piece>) {
    && ps != [] && from <= ps[0].at && ps[0].code == 2
    && (forall i :: 0 <= i < |ps| ==> Sound(step, file, ps[i]))
    && (forall i :: 0 < i < |ps| ==> ps[i].code == 3 && ps[i].at == EndOf(ps[i - 1]) + Lead(EndOf(ps[i - 1])))
  }

  /** The record is what a full piece holds, or the data of a first piece, middle ones and a
      last one, all sound and right behind each other. */
  ghost predicate Vouched(step: CrcStep, file: Bytes, from: nat, to: nat, r: Bytes) {
    || (exists p :: Sound(step, file, p) && from <= p.at && EndOf(p) == to && p.code == 1 && p.data == r)
    || (exists ps, p :: Ends(step, file, from, to, ps, p) && r == DataOf(ps) + p.data)
  }

  ghost predicate Ends(step: CrcStep, file: Bytes, from: nat, to: nat, ps: seq<Piece>, p: Piece) {
    && Begun(step, file, from, ps) && Sound(step, file, p) && p.code == 4
    && p.at == EndOf(ps[|ps| - 1]) + Lead(EndOf(ps[|ps| - 1])) && EndOf(p) == to
  }

  /** What has been gathered so far of a record in fragments. */
  ghost predicate Gathered(step: CrcStep, file: Bytes, from: nat, to: int, ps: seq<Piece>, scratch: Bytes) {
    Begun(step, file, from, ps) && EndOf(ps[|ps| - 1]) == to && scratch == DataOf(ps)
  }

  lemma GatherFirst(step: CrcStep, file: Bytes, from: nat, p: Piece)
    requires Sound(step, file, p) && from <= p.at && p.code == 2
    ensures Gathered(step, file, from, EndOf(p), [p], p.data)
  {
    hide Sound;
    DataMore([], p);
  }

  lemma GatherMore(step: CrcStep, file: Bytes, from: nat, to: nat, ps: seq<Piece>, scratch: Bytes, p: Piece)
    requires Gathered(step, file, from, to, ps, scratch) && Sound(step, file, p) && p.code == 3 && p.at == to + Lead(to)
    ensures Gathered(step, file, from, EndOf(p), ps + [p], scratch + p.data)
  {
    hide Sound, Lead;
    DataMore(ps, p);
  }

  lemma GatherLast(step: CrcStep, file: Bytes, from: nat, to: nat, ps: seq<Piece>, scratch: Bytes, p: Piece)
    requires Gathered(step, file, from, to, ps, scratch) && Sound(step, file, p) && p.code == 4 && p.at == to + Lead(to)
    ensures Vouched(step, file, from, EndOf(p), scratch + p.data)
  {
    hide Sound, Begun, Lead;
    assert ps != [] by { GatheredSome(step, file, from, to, ps, scratch); }
    assert Ends(step, file, from, EndOf(p), ps, p);
  }

  lemma GatheredSome(step: CrcStep, file: Bytes, from: nat, to: nat, ps: seq<Piece>, scratch: Bytes)
    requires Gathered(step, file, from, to, ps, scratch)
    ensures ps != []
  {
  }

  lemma FullVouched(step: CrcStep, file: Bytes, from: nat, p: Piece)
    requires Sound(step, file, p) && from <= p.at && p.code == 1
    ensures Vouched(step, file, from, EndOf(p), p.data)
  {
    hide Sound;
  }

  /** What ReadPhysicalRecord returns. */
  datatype PhysicalRecord = Eof | BadRecord | Record(code: Byte, data: Bytes)

  class LogReader {
    const step: CrcStep
    const file: Bytes
    var buffer: Bytes            // the unread part of the last block read
    var eof: bool                // the last read was short
    var endOfBuffer: nat         // where in the file the buffer ends
    var reports: nat             // how often a corruption was reported

    ghost function Pos(): int
      reads this`buffer, this`endOfBuffer
    {
      endOfBuffer - |buffer|
    }

    ghost predicate Ok()
      reads this`buffer, this`eof, this`endOfBuffer
    {
      && |buffer| <= endOfBuffer <= |file|
      && buffer == file[endOfBuffer - |buffer|..endOfBuffer]
      && Pos() % BLOCK_SIZE + |buffer| <= BLOCK_SIZE
      && (eof ==> endOfBuffer == |file|)
      && (!eof ==> endOfBuffer % BLOCK_SIZE == 0)
    }

    constructor (step: CrcStep, file: Bytes)
      ensures Ok() && Pos() == 0 && reports == 0 && this.step == step && this.file == file
    {
      this.step, this.file := step, file;
      buffer, eof, endOfBuffer, reports := [], false, 0, 0;
    }

    /** Reads blocks until the buffer holds a header; false at the end of the file. */
    method Fill() returns (more: bool)
      requires Ok()
      modifies this`buffer, this`eof, this`endOfBuffer
      ensures Ok()
      ensures more ==> |buffer| >= HEADER_SIZE && Pos() == old(Pos()) + Lead(old(Pos()))
      ensures !more ==> |file| < old(Pos()) + Lead(old(Pos())) + HEADER_SIZE
      ensures !more ==> Pos() == |file|
    {
      ghost var start := Pos();
      BufferInBlock();
      while |buffer| < HEADER_SIZE
        invariant Ok() && start <= Pos()
        invariant |buffer| >= HEADER_SIZE ==> Pos() == start + Lead(start)
        invariant |buffer| < HEADER_SIZE && !eof ==> Pos() == start && |buffer| == Lead(start)
        invariant |buffer| < HEADER_SIZE && eof ==> |file| < start + Lead(start) + HEADER_SIZE
        decreases !eof, if |buffer| < HEADER_SIZE then 1 else 0
      {
        if eof {
          // a truncated header at the end of the file is not an error
          buffer := [];
          return false;
        }
        ReadBlock();
      }
      return true;
    }

    /** Reads the next block, or what is left of the file, into the buffer. */
    method ReadBlock()
      requires Ok() && !eof
      modifies this`buffer, this`eof, this`endOfBuffer
      ensures Ok() && Pos() == old(endOfBuffer)
      ensures if eof then |file| < old(endOfBuffer) + BLOCK_SIZE else |buffer| == BLOCK_SIZE
    {
      var n := if |file| - endOfBuffer < BLOCK_SIZE then |file| - endOfBuffer else BLOCK_SIZE;
      buffer := file[endOfBuffer..endOfBuffer + n];
      endOfBuffer := endOfBuffer + n;
      if n < BLOCK_SIZE {
        eof := true;
      }
    }

    /** The buffer reaches to the end of the block, or to the end of the file. */
    lemma BufferInBlock()
      requires Ok()
      ensures |buffer| >= HEADER_SIZE ==> Lead(Pos()) == 0
      ensures |buffer| < HEADER_SIZE && !eof ==> |buffer| == Lead(Pos())
      ensures !eof ==> |buffer| == 0 || Pos() % BLOCK_SIZE + |buffer| == BLOCK_SIZE
    {
      var p := Pos();
      if !eof && |buffer| > 0 {
        WholeBlocks(p, |buffer|);
      }
    }

    /** Skips what remains of the buffer and reports it. */
    method Drop()
      requires Ok()
      modifies this`buffer, this`reports
      ensures Ok() && Pos() == endOfBuffer && buffer == [] && reports == old(reports) + 1
    {
      buffer := [];
      reports := reports + 1;
    }

    /** Parses the record at the start of the buffer and checks it. */
    method ParseRecord() returns (r: PhysicalRecord)
      requires Ok() && |buffer| >= HEADER_SIZE
      modifies this`buffer, this`reports
      ensures Ok() && (r != Eof ==> Pos() > old(Pos())) && (r == Eof ==> Pos() == |file|)
      ensures Parsed(step, old(buffer), old(eof), r)
      ensures r.Record? ==> Pos() == old(Pos()) + HEADER_SIZE + |r.data|
      ensures r.Record? || r.Eof? ==> reports == old(reports)
    {
      var length, code := (buffer[4] as int) + 256 * (buffer[5] as int), buffer[6];
      if HEADER_SIZE + length > |buffer| {
        if !eof {
          Drop();
          return BadRecord;
        }
        // the writer died while writing this record
        buffer := [];
        return Eof;
      }
      if code == 0 && length == 0 {
        // preallocated space, skipped without a report
        buffer := [];
        return BadRecord;
      }
      var expected := Unmask(FromFixedWord(buffer[..4]));
      var actual := Crc(step, buffer[6..7 + length]);
      if actual != expected {
        Drop();
        return BadRecord;
      }
      r := Record(code, buffer[7..7 + length]);
      ghost var before := Pos();
      buffer := buffer[7 + length..];
      RestOfBlock(before, |buffer|, 7 + length);
    }

    method ReadPhysicalRecord() returns (r: PhysicalRecord)
      requires Ok()
      modifies this`buffer, this`eof, this`endOfBuffer, this`reports
      ensures Ok() && (r != Eof ==> Pos() > old(Pos())) && (r == Eof ==> Pos() == |file|)
      ensures r.Record? ==>
                var p := Piece(old(Pos()) + Lead(old(Pos())), r.code, r.data);
                Sound(step, file, p) && Pos() == EndOf(p)
      ensures forall t, d {:trigger Agrees(file, old(Pos()), Emitted(step, old(Pos()), t, d))} ::
                |d| <= Room(old(Pos())) && Agrees(file, old(Pos()), Emitted(step, old(Pos()), t, d)) ==>
                  && reports == old(reports)
                  && var end := old(Pos()) + |Emitted(step, old(Pos()), t, d)|;
                     if end <= |file| then r == Record(Code(t), d) && Pos() == end else r == Eof
    {
      hide Agrees, Parsed, Emitted, Room, Sound, Lead;
      ghost var start := Pos();
      var more := Fill();
      if !more {
        return Eof;
      }
      BufferInBlock();
      ghost var block, wasEof := buffer, eof;
      r := ParseRecord();
      if r.Record? {
        ParsedSound(step, file, start + Lead(start), block, wasEof, r);
      }
      forall t, d | |d| <= Room(start) && Agrees(file, start, Emitted(step, start, t, d))
        ensures if start + |Emitted(step, start, t, d)| <= |file| then r == Record(Code(t), d) else r == Eof
      {
        ParsesEmitted(step, file, start, block, wasEof, t, d, r);
      }
    }

    /** Joins the fragments of the next record.  If the file holds the bytes of a
        record here, as far as it goes, then the record is returned exactly when all of
        it is there, and nothing is reported either way.  Whatever the file holds, a
        record that is returned is made of pieces whose checksums hold. */
    method ReadRecord(ghost data: Bytes) returns (r: Option<Bytes>)
      requires Ok()
      modifies this`buffer, this`eof, this`endOfBuffer, this`reports
      ensures Ok() && (r.Some? ==> Pos() > old(Pos()) >= 0 && Vouched(step, file, old(Pos()), Pos(), r.value))
      ensures Agrees(file, old(Pos()), Fragments(step, data, old(Pos()), true)) ==>
                && reports == old(reports)
                && var end := old(Pos()) + |Fragments(step, data, old(Pos()), true)|;
                   if end <= |file| then r == Some(data) && Pos() == end else r == None
    {
      hide Ok, Agrees, Fragments, Fragment, Physical, Room, Lead, Taken, Emitted, Joining, Sound, Gathered, Vouched;
      InFile();
      ghost var start := Pos();
      ghost var fine := Agrees(file, start, Fragments(step, data, start, true));
      ghost var end := start + |Fragments(step, data, start, true)|;
      ghost var rest := data;
      var scratch: Bytes, inFragmented := [], false;
      ghost var pieces: seq<Piece> := [];
      JoiningStart(step, file, data, start);
      while true
        invariant Ok() && Pos() >= start
        invariant inFragmented ==> Gathered(step, file, start, Pos(), pieces, scratch)
        invariant fine ==> reports == old(reports) && Joining(step, file, data, end, scratch, inFragmented, rest, Pos())
        decreases |file| - Pos()
      {
        ghost var at := Pos();
        InFile();
        var p := ReadPhysicalRecord();
        InFile();
        if fine {
          JoiningStep(step, file, data, end, scratch, inFragmented, rest, at);
          ghost var n := Taken(at, |rest|);
          ghost var t := TypeOf(!inFragmented, n == |rest|);
          assert Agrees(file, at, Emitted(step, at, t, rest[..n]));
          assert p == Record(Code(t), rest[..n]) || (p == Eof && end > |file|);
          assert scratch == [] ==> scratch + rest[..n] == rest[..n];
        }
        match p
        case Eof =>
          return None;
        case BadRecord =>
          if inFragmented {
            reports := reports + 1;
            inFragmented, scratch := false, [];
          }
        case Record(code, fragment) =>
          ghost var piece := Piece(at + Lead(at), code, fragment);
          if code == 1 {
            if inFragmented && scratch != [] {
              reports := reports + 1;
            }
            FullVouched(step, file, start, piece);
            return Some(fragment);
          } else if code == 2 {
            if inFragmented && scratch != [] {
              reports := reports + 1;
            }
            GatherFirst(step, file, start, piece);
            scratch, inFragmented, pieces := fragment, true, [piece];
          } else if code == 3 {
            if !inFragmented {
              reports := reports + 1;
            } else {
              GatherMore(step, file, start, at, pieces, scratch, piece);
              scratch, pieces := scratch + fragment, pieces + [piece];
            }
          } else if code == 4 {
            if !inFragmented {
              reports := reports + 1;
            } else {
              GatherLast(step, file, start, at, pieces, scratch, piece);
              scratch := scratch + fragment;
              return Some(scratch);
            }
          } else {
            reports := reports + 1;
            inFragmented, scratch := false, [];
          }
        rest := rest[Taken(at, |rest|)..];
      }
    }

    lemma InFile()
      requires Ok()
      ensures 0 <= Pos() <= |file|
    {
    }
  }

  /** A physical record after the zeros that lead to it. */
  function Emitted(step: CrcStep, pos: nat, t: RecordType, d: Bytes): (r: Bytes)
    requires |d| <= 0xffff
    ensures |r| == Lead(pos) + HEADER_SIZE + |d|
  {
    Zeros(Lead(pos)) + Physical(step, t, d)
  }

  function FromFixedWord(b: Bytes): Word
    requires |b| == 4
  {
    FromFixedBound(b);
    assert Pow256(4) == WORD;
    FromFixed(b)
  }

  /** What the bytes of a buffer parse to. */
  ghost predicate Parsed(step: CrcStep, buffer: Bytes, eof: bool, r: PhysicalRecord)
    requires |buffer| >= HEADER_SIZE
  {
    var length, code := (buffer[4] as int) + 256 * (buffer[5] as int), buffer[6];
    if HEADER_SIZE + length > |buffer| then
      r == if eof then Eof else BadRecord
    else if code == 0 && length == 0 then
      r == BadRecord
    else if Crc(step, buffer[6..7 + length]) != Unmask(FromFixedWord(buffer[..4])) then
      r == BadRecord
    else
      r == Record(code, buffer[7..7 + length])
  }

  lemma SliceOf(file: Bytes, q: nat, n: nat, a: nat, b: nat)
    requires q + n <= |file| && a <= b <= n
    ensures file[q..q + n][a..b] == file[q + a..q + b]
  {
    var part, slice := file[q..q + n][a..b], file[q + a..q + b];
    forall i | 0 <= i < |part|
      ensures part[i] == slice[i]
    {
      assert file[q..q + n][a + i] == file[q + a + i];
    }
  }

  /** A record that is parsed has its checksum. */
  lemma ParsedSound(step: CrcStep, file: Bytes, q: nat, buffer: Bytes, eof: bool, r: PhysicalRecord)
    requires |buffer| >= HEADER_SIZE && q + |buffer| <= |file| && buffer == file[q..q + |buffer|]
    requires Parsed(step, buffer, eof, r) && r.Record?
    ensures Sound(step, file, Piece(q, r.code, r.data))
  {
    var length := |r.data|;
    SliceOf(file, q, |buffer|, 0, 4);
    assert buffer[..4] == buffer[0..4];
    SliceOf(file, q, |buffer|, 7, 7 + length);
    assert buffer[6..7 + length] == [r.code] + r.data;
    assert buffer[4] == file[q + 4] && buffer[5] == file[q + 5] && buffer[6] == file[q + 6];
    MaskUnmask(FromFixedWord(buffer[..4]));
  }

  /** A buffer that agrees with a physical record parses to it, or ends within it. */
  lemma ParsesPhysical(step: CrcStep, buffer: Bytes, eof: bool, t: RecordType, d: Bytes, r: PhysicalRecord)
    requires |d| <= 0xffff && |buffer| >= HEADER_SIZE && Agrees(buffer, 0, Physical(step, t, d))
    requires Parsed(step, buffer, eof, r) && (!eof ==> HEADER_SIZE + |d| <= |buffer|)
    ensures if HEADER_SIZE + |d| <= |buffer| then r == Record(Code(t), d) else r == Eof
  {
    var e := Physical(step, t, d);
    var header := Header(Crc(step, [Code(t)] + d), |d|, Code(t));
    assert forall i :: 0 <= i < HEADER_SIZE ==> buffer[i] == e[i] == header[i];
    assert buffer[..4] == header[..4];
    if HEADER_SIZE + |d| <= |buffer| {
      assert buffer[..7 + |d|] == e;
      assert buffer[7..7 + |d|] == e[7..] == d;
      assert buffer[6..7 + |d|] == [buffer[6]] + buffer[7..7 + |d|];
      UnmaskMask(Crc(step, [Code(t)] + d));
    }
  }

  lemma ParsesEmitted(step: CrcStep, file: Bytes, start: nat, buffer: Bytes, eof: bool, t: RecordType, d: Bytes, r: PhysicalRecord)
    requires |d| <= Room(start) && Agrees(file, start, Emitted(step, start, t, d))
    requires var q := start + Lead(start);
             && |buffer| >= HEADER_SIZE && q + |buffer| <= |file| && buffer == file[q..q + |buffer|]
             && (!eof ==> q % BLOCK_SIZE + |buffer| == BLOCK_SIZE) && (eof ==> q + |buffer| == |file|)
    requires Parsed(step, buffer, eof, r)
    ensures if start + |Emitted(step, start, t, d)| <= |file| then r == Record(Code(t), d) else r == Eof
  {
    var q := start + Lead(start);
    AgreesSplit(file, start, Zeros(Lead(start)), Physical(step, t, d));
    hide Parsed, Physical;
    assert Agrees(buffer, 0, Physical(step, t, d)) by {
      forall i | 0 <= i < |Physical(step, t, d)| && i < |buffer|
        ensures buffer[i] == Physical(step, t, d)[i]
      {
        assert file[q + i] == buffer[i];
      }
    }
    ParsesPhysical(step, buffer, eof, t, d, r);
  }

  /** The record is joined from `scratch`, what is read, and `rest`, what is to come. */
  ghost predicate Joining(step: CrcStep, file: Bytes, data: Bytes, end: nat, scratch: Bytes, inFragmented: bool,
                          rest: Bytes, pos: nat)
  {
    && data == scratch + rest
    && (!inFragmented ==> scratch == [])
    && end == pos + |Fragments(step, rest, pos, !inFragmented)|
    && Agrees(file, pos, Fragments(step, rest, pos, !inFragmented))
  }

  lemma JoiningStart(step: CrcStep, file: Bytes, data: Bytes, pos: nat)
    ensures Agrees(file, pos, Fragments(step, data, pos, true)) ==>
              Joining(step, file, data, pos + |Fragments(step, data, pos, true)|, [], false, data, pos)
  {
    assert [] + data == data;
  }

  /** The next physical record is the next fragment of the record. */
  lemma JoiningStep(step: CrcStep, file: Bytes, data: Bytes, end: nat, scratch: Bytes, inFragmented: bool, rest: Bytes, pos: nat)
    requires Joining(step, file, data, end, scratch, inFragmented, rest, pos)
    ensures var n := Taken(pos, |rest|);
            var last := n == |rest|;
            var t := TypeOf(!inFragmented, last);
            && Agrees(file, pos, Emitted(step, pos, t, rest[..n]))
            && pos + |Emitted(step, pos, t, rest[..n])| <= end && n <= Room(pos) && (!inFragmented ==> scratch == [])
            && (last ==> pos + |Emitted(step, pos, t, rest[..n])| == end && data == scratch + rest[..n])
            && (!last ==> Joining(step, file, data, end, scratch + rest[..n], true, rest[n..],
                                  pos + |Emitted(step, pos, t, rest[..n])|))
  {
    hide Fragments, Fragment, Agrees, Emitted, Physical, TypeOf, Lead, Room, Taken;
    var n := Taken(pos, |rest|);
    EmittedFirst(step, rest, pos, !inFragmented);
    var first := Fragment(step, rest, pos, !inFragmented);
    if n == |rest| {
      assert rest[..n] == rest;
      assert first + [] == first;
    } else {
      AgreesSplit(file, pos, first, Fragments(step, rest[n..], pos + |first|, false));
      JoinedData(scratch, rest, n);
    }
  }

  lemma JoinedData(scratch: Bytes, rest: Bytes, n: nat)
    requires n <= |rest|
    ensures scratch + rest[..n] + rest[n..] == scratch + rest
  {
    assert rest[..n] + rest[n..] == rest;
  }

  /** What is emitted next is the first fragment of what is to come. */
  lemma EmittedFirst(step: CrcStep, rest: Bytes, pos: nat, begin: bool)
    ensures var n := Taken(pos, |rest|);
            var first := Fragment(step, rest, pos, begin);
            && Emitted(step, pos, TypeOf(begin, n == |rest|), rest[..n]) == first
            && Fragments(step, rest, pos, begin) ==
               first + if n == |rest| then [] else Fragments(step, rest[n..], pos + |first|, false)
  {
    FragmentsStep(step, rest, pos, begin);
  }

  lemma RestOfBlock(p: nat, rest: nat, used: nat)
    requires p % BLOCK_SIZE + used + rest <= BLOCK_SIZE
    ensures (p + used) % BLOCK_SIZE + rest <= BLOCK_SIZE
  {
  }

  /** A stretch within one block that ends at a block boundary ends the block. */
  lemma WholeBlocks(p: nat, n: nat)
    requires 0 < n && p % BLOCK_SIZE + n <= BLOCK_SIZE && (p + n) % BLOCK_SIZE == 0
    ensures p % BLOCK_SIZE + n == BLOCK_SIZE
  {
  }
}