/** The files as any other reader of the formats sees them: where each byte of a number, a
    log record, a batch, a version edit, a table stands, in plain digits. */
module DiskFormats {
  import opened Coding
  import opened Logs
  import opened Batches
  import opened Blocks
  import opened Tables
  import VersionEdits

  // ------------------------------------------------------------------ numbers

  /** The i-th byte of a fixed number is its i-th digit to the base 256. */
  lemma {:induction false} FixedDigits(v: nat, n: nat, i: nat)
    requires i < n
    ensures Fixed(v, n)[i] as nat == v / Pow256(i) % 256
    decreases n
  {
    if i > 0 {
      FixedDigits(v / 256, n - 1, i - 1);
      DivideTwice(v, 256, Pow256(i - 1));
    }
  }

  lemma DivideTwice(v: nat, a: nat, b: nat)
    requires a > 0 && b > 0
    ensures a * b > 0 && v / a / b == v / (a * b)
  {
    var q, r := v / a / b, v / a % b * a + v % a;
    Distribute(a, b, q, v / a % b);
    Remainder(a, b, v / a % b, v % a);
    QuotientIs(v, a * b, q, r);
  }

  lemma Distribute(a: nat, b: nat, x: nat, y: nat)
    ensures a * (b * x + y) == (a * b) * x + y * a
  {
  }

  lemma Remainder(a: nat, b: nat, x: nat, y: nat)
    requires x < b && y < a
    ensures x * a + y < a * b
  {
    assert (x + 1) * a <= b * a;
  }

  lemma QuotientIs(v: nat, m: nat, q: nat, r: nat)
    requires m > 0 && r < m && v == m * q + r
    ensures v / m == q
  {
    var x := q - v / m;
    assert m * x == m * q - m * (v / m) == v % m - r;
    AtLeastOnce(m, x);
  }

  lemma AtLeastOnce(m: nat, x: int)
    ensures x >= 1 ==> m * x >= m
    ensures x <= -1 ==> m * x + m <= 0
  {
    if x >= 1 {
      assert m * x == m + m * (x - 1);
    } else if x <= -1 {
      assert m * x + m == m * (x + 1);
    }
  }

  /** A 32-bit number takes four bytes, the lowest first. */
  lemma WordDigits(v: Word)
    ensures EncodeFixed32(v) == [v % 0x100, v / 0x100 % 0x100, v / 0x1_0000 % 0x100, v / 0x100_0000]
  {
    var b := Fixed(v, 4);
    assert Pow256(0) == 1 && Pow256(1) == 0x100 && Pow256(2) == 0x1_0000 && Pow256(3) == 0x100_0000;
    FixedDigits(v, 4, 0);
    FixedDigits(v, 4, 1);
    FixedDigits(v, 4, 2);
    FixedDigits(v, 4, 3);
  }

  /** The i-th byte of a varint holds its i-th digit to the base 128; all bytes but the
      last have the high bit set, and the last one of several is not zero. */
  lemma {:induction false} VarintDigits(v: nat, i: nat)
    requires i < |Varint(v)|
    ensures Varint(v)[i] as nat % 128 == v / Pow128(i) % 128
    ensures Varint(v)[i] >= 128 <==> i + 1 < |Varint(v)|
    ensures i > 0 && i + 1 == |Varint(v)| ==> Varint(v)[i] > 0
    decreases i
  {
    if i > 0 {
      VarintDigits(v / 128, i - 1);
      DivideTwice(v, 128, Pow128(i - 1));
    }
  }

  // ------------------------------------------------------------------ the log

  /** A number rotated right by fifteen bits, with a constant added. */
  lemma MaskDigits(c: Word)
    ensures Mask(c) == ((c / 0x8000) + (c % 0x8000) * 0x2_0000 + 0xa282ead8) % 0x1_0000_0000
  {
  }

  /** A physical record: four bytes of checksum, two of length, one of type, the data. */
  lemma PhysicalFormat(step: CrcStep, t: RecordType, d: Bytes)
    requires |d| <= 0xffff
    ensures var r, c := Physical(step, t, d), Mask(Crc(step, [Code(t)] + d));
            && |r| == 7 + |d| && r[..4] == [c % 0x100, c / 0x100 % 0x100, c / 0x1_0000 % 0x100, c / 0x100_0000]
            && r[4] as nat == |d| % 0x100 && r[5] as nat == |d| / 0x100
            && r[6] == (match t case FullType => 1 case FirstType => 2 case MiddleType => 3 case LastType => 4)
            && r[7..] == d
  {
    WordDigits(Mask(Crc(step, [Code(t)] + d)));
  }

  /** A fragment: zeros to the end of a block of 32768 bytes that has less than seven bytes
      left, and then a physical record that stays inside its block.  The type of the record
      says whether it is the first and whether it is the last of its data; one that is not
      the last fills its block. */
  lemma FragmentFormat(step: CrcStep, data: Bytes, pos: nat, begin: bool)
    ensures var left, zeros, f := 32768 - pos % 32768, Lead(pos), Fragment(step, data, pos, begin);
            && zeros == (if left < 7 then left else 0) && zeros + 7 <= |f|
            && (forall i :: 0 <= i < zeros ==> f[i] == 0)
            && var n := |f| - zeros - 7;
               && n <= |data| && f[zeros + 7..] == data[..n]
               && (pos + zeros) % 32768 + 7 + n <= 32768
               && (n < |data| ==> (pos + zeros) % 32768 + 7 + n == 32768)
               && f[zeros + 6] == if begin then (if n == |data| then 1 else 2) else (if n == |data| then 4 else 3)
  {
    var n, zeros := Taken(pos, |data|), Lead(pos);
    var t := TypeOf(begin, n == |data|);
    PhysicalFormat(step, t, data[..n]);
    hide Physical;
    var f := Fragment(step, data, pos, begin);
    assert f == Zeros(zeros) + Physical(step, t, data[..n]);
    assert f[zeros..] == Physical(step, t, data[..n]);
    assert f[zeros + 7..] == f[zeros..][7..];
  }

  // ------------------------------------------------------------------ batches

  /** A batch: eight bytes of sequence number, four of count, the operations. */
  lemma BatchFormat(sequence: nat, ops: seq<BatchOp>, i: nat)
    requires sequence < LONG && |ops| < WORD && i < 12
    ensures Rep(sequence, ops)[i] as nat == if i < 8 then sequence / Pow256(i) % 256 else |ops| / Pow256(i - 8) % 256
    ensures Rep(sequence, ops)[12..] == EncodeOps(ops)
  {
    if i < 8 {
      FixedDigits(sequence, 8, i);
    } else {
      FixedDigits(|ops|, 4, i - 8);
    }
  }

  /** An operation: one for a put and zero for a deletion, then the strings, each with its
      length in front. */
  lemma OpFormat(op: BatchOp)
    ensures var b := EncodeOp(op);
            && b[0] == (if op.PutOp? then 1 else 0)
            && b[1..] == Varint(|op.key|) + op.key + if op.PutOp? then Varint(|op.value|) + op.value else []
  {
    hide Varint;
  }

  // ------------------------------------------------------------------ version edits

  /** A field of a version edit starts with its tag. */
  lemma FieldFormat(c: VersionEdits.KeyCodec, f: VersionEdits.Field)
    ensures var b := VersionEdits.EncodeField(c, f);
            b != [] && b[0] == match f
                               case Comparator(_) => 1
                               case LogNumber(_) => 2
                               case NextFileNumber(_) => 3
                               case LastSequence(_) => 4
                               case CompactPointer(_, _) => 5
                               case DeletedFile(_, _) => 6
                               case NewFile(_, _) => 7
                               case PrevLogNumber(_) => 9
  {
  }

  /** A new file: its level, number and size, and its smallest and largest key. */
  lemma NewFileFormat(c: VersionEdits.KeyCodec, l: nat, number: nat, size: nat, f: VersionEdits.Field)
    requires f.NewFile? && f.level == l && f.file.number == number && f.file.size == size
    ensures var s, t := c.encode(f.file.smallest), c.encode(f.file.largest);
            VersionEdits.EncodeField(c, f) ==
              [7] + Varint(l) + Varint(number) + Varint(size) + Varint(|s|) + s + Varint(|t|) + t
  {
    assert Varint(7) == [7];
    hide Varint;
    var s, t := c.encode(f.file.smallest), c.encode(f.file.largest);
    InOneRow([7], Varint(l), Varint(number), Varint(size), Varint(|s|), s, Varint(|t|), t);
  }

  lemma InOneRow(a: Bytes, b: Bytes, c: Bytes, d: Bytes, e: Bytes, f: Bytes, g: Bytes, h: Bytes)
    ensures a + (b + (c + (d + ((e + f) + (g + h))))) == a + b + c + d + e + f + g + h
  {
    assert c + (d + ((e + f) + (g + h))) == c + d + e + f + g + h;
  }

  // ------------------------------------------------------------------ tables

  /** An entry of a block: the length of the shared prefix, that of the rest of the key,
      that of the value; the rest of the key; the value. */
  lemma EntryFormat(shared: nat, p: Pair)
    requires shared <= |p.key|
    ensures EntryBytes(shared, p) ==
              Varint(shared) + Varint(|p.key| - shared) + Varint(|p.value|) + p.key[shared..] + p.value
  {
    hide Varint;
  }

  /** After a block: a zero, since nothing is compressed, and the checksum. */
  lemma TrailerFormat(step: CrcStep, data: Bytes)
    ensures var c := Mask(Crc(step, data + [0]));
            Trailer(step, data) == [0, c % 0x100, c / 0x100 % 0x100, c / 0x1_0000 % 0x100, c / 0x100_0000]
  {
    WordDigits(Mask(Crc(step, data + [0])));
  }

  /** The footer: two handles, zeros up to forty bytes, and the eight bytes of the magic
      number, the lowest first. */
  lemma FooterFormat(meta: Handle, index: Handle)
    requires |HandleBytes(meta)| <= 20 && |HandleBytes(index)| <= 20
    ensures var r := FooterBytes(meta, index);
            var handles := Varint(meta.offset) + Varint(meta.size) + Varint(index.offset) + Varint(index.size);
            && |r| == 48 && handles <= r && |handles| <= 40
            && (forall i :: |handles| <= i < 40 ==> r[i] == 0)
            && r[40..] == [0x57, 0xfb, 0x80, 0x8b, 0x24, 0x75, 0x47, 0xdb]
  {
    MagicBytes();
    hide Varint, EncodeFixed32;
    var handles := HandleBytes(meta) + HandleBytes(index);
    assert handles == Varint(meta.offset) + Varint(meta.size) + Varint(index.offset) + Varint(index.size);
    var front := handles + Zeros(40 - |handles|);
    assert FooterBytes(meta, index) == front + (EncodeFixed32(MAGIC % WORD) + EncodeFixed32(MAGIC / WORD));
  }

  /** A footer without the magic number is refused. */
  lemma FooterNeedsMagic(b: Bytes)
    requires |b| == 48 && GetFooter(b).Some?
    ensures b[40..] == [0x57, 0xfb, 0x80, 0x8b, 0x24, 0x75, 0x47, 0xdb]
  {
    hide GetHandle;
    WordBack(b[40..44]);
    WordBack(b[44..]);
    hide FromFixed, EncodeFixed32;
    BothWords(FromFixed(b[40..44]), FromFixed(b[44..]));
    MagicBytes();
    assert b[40..] == b[40..44] + b[44..];
  }

  lemma BothWords(low: Word, high: Word)
    requires low + WORD * high == MAGIC
    ensures low == MAGIC % WORD && high == MAGIC / WORD
  {
  }

  lemma MagicBytes()
    ensures EncodeFixed32(MAGIC % WORD) + EncodeFixed32(MAGIC / WORD) == [0x57, 0xfb, 0x80, 0x8b, 0x24, 0x75, 0x47, 0xdb]
  {
    WordDigits(MAGIC % WORD);
    WordDigits(MAGIC / WORD);
  }
}
