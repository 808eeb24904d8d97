/** Table files: table_builder.cc writes blocks, a filter, an index and a footer;
    table.cc opens the file and looks keys up through index, filter and block. */
module Tables {
  import opened Keys
  import opened Coding
  import opened Logs
  import opened Blocks
  import opened Filters
  import opened Separators

  // ------------------------------------------------------------------ handles and stored blocks

  /** The extent of a block in a file. */
  datatype Handle = Handle(offset: nat, size: nat)

  function HandleBytes(h: Handle): Bytes {
    Varint(h.offset) + Varint(h.size)
  }

  /** BlockHandle::DecodeFrom: the handle and what follows it. */
  function GetHandle(b: Bytes): (r: Option<(Handle, Bytes)>) {
    var offset := GetVarint64(b);
    if offset.None? then None else
    var size := GetVarint64(offset.value.1);
    if size.None? then None else Some((Handle(offset.value.0, size.value.0), size.value.1))
  }

  lemma HandleRoundTrip(h: Handle, tail: Bytes)
    requires h.offset < LONG && h.size < LONG
    ensures GetHandle(HandleBytes(h) + tail) == Some((h, tail))
  {
    hide Varint, GetVarint64;
    Get64(h.offset, Varint(h.size) + tail);
    Get64(h.size, tail);
    assert HandleBytes(h) + tail == Varint(h.offset) + (Varint(h.size) + tail);
  }

  lemma HandleSize(h: Handle)
    requires h.offset < LONG && h.size < LONG
    ensures |HandleBytes(h)| <= 20
  {
    Pow128Of10();
    VarintRoundTrip(h.offset, 10, []);
    VarintRoundTrip(h.size, 10, []);
    hide Varint, FromVarint;
  }

  const TRAILER_SIZE := 5
  const NO_COMPRESSION: Byte := 0

  /** The type of a block and the masked checksum of block and type. */
  function Trailer(step: CrcStep, data: Bytes): (r: Bytes)
    ensures |r| == TRAILER_SIZE
  {
    [NO_COMPRESSION] + EncodeFixed32(Mask(Crc(step, data + [NO_COMPRESSION])))
  }

  /** The bytes lie in the file where the handle says, with their trailer. */
  ghost predicate BlockAt(step: CrcStep, file: Bytes, h: Handle, data: Bytes) {
    && h.size == |data| && h.offset + h.size + TRAILER_SIZE <= |file|
    && file[h.offset..h.offset + h.size + TRAILER_SIZE] == data + Trailer(step, data)
  }

  lemma BlockStays(step: CrcStep, file: Bytes, more: Bytes, h: Handle, data: Bytes)
    requires BlockAt(step, file, h, data)
    ensures BlockAt(step, file + more, h, data)
  {
    hide Trailer;
    var end := h.offset + h.size + TRAILER_SIZE;
    assert (file + more)[h.offset..end] == file[h.offset..end];
  }

  lemma BlockAtEnd(step: CrcStep, file: Bytes, data: Bytes)
    ensures BlockAt(step, file + data + Trailer(step, data), Handle(|file|, |data|), data)
  {
    hide Trailer;
    var all := file + data + Trailer(step, data);
    assert all[|file|..] == data + Trailer(step, data);
    assert |all| == |file| + |data| + TRAILER_SIZE;
  }

  /** RandomAccessFile::Read: up to n bytes from an offset, fewer at the end of the file. */
  function Read(file: Bytes, offset: nat, n: nat): Bytes {
    if offset > |file| then [] else if offset + n > |file| then file[offset..] else file[offset..offset + n]
  }

  /** What ReadBlock returns: nothing for a cut block, a wrong checksum or another type. */
  function ReadBlock(step: CrcStep, file: Bytes, h: Handle, verifyChecksums: bool): Option<Bytes> {
    var contents, n := Read(file, h.offset, h.size + TRAILER_SIZE), h.size;
    if |contents| != n + TRAILER_SIZE then None
    else if verifyChecksums && Crc(step, contents[..n + 1]) != Unmask(FromFixed(contents[n + 1..]) % WORD) then None
    else if contents[n] != NO_COMPRESSION then None
    else Some(contents[..n])
  }

  lemma TrailerParts(step: CrcStep, data: Bytes)
    ensures Trailer(step, data)[0] == NO_COMPRESSION
    ensures Unmask(FromFixed(Trailer(step, data)[1..]) % WORD) == Crc(step, data + [NO_COMPRESSION])
  {
    hide Mask, Unmask, Crc, FromFixed, Fixed;
    var crc := Crc(step, data + [NO_COMPRESSION]);
    UnmaskMask(crc);
    SmallWord(Mask(crc));
    assert Trailer(step, data)[1..] == EncodeFixed32(Mask(crc));
  }

  lemma SmallWord(w: Word)
    ensures w % WORD == w
  {
  }

  /** A stored block is read back, with or without its checksum verified. */
  lemma StoredIsRead(step: CrcStep, file: Bytes, h: Handle, data: Bytes, verifyChecksums: bool)
    requires BlockAt(step, file, h, data)
    ensures ReadBlock(step, file, h, verifyChecksums) == Some(data)
  {
    var contents, n := Read(file, h.offset, h.size + TRAILER_SIZE), h.size;
    assert contents == data + Trailer(step, data);
    TrailerParts(step, data);
    hide Mask, Unmask, Crc, Read, Trailer, FromFixed;
    assert contents[..n] == data && contents[n + 1..] == Trailer(step, data)[1..];
    assert contents[..n + 1] == data + [NO_COMPRESSION];
  }

  lemma {:induction false} FixedBack(b: Bytes)
    ensures Fixed(FromFixed(b), |b|) == b && FromFixed(b) < Pow256(|b|)
  {
    if b != [] {
      FixedBack(b[1..]);
      assert b == [b[0]] + b[1..];
    }
  }

  lemma WordBack(b: Bytes)
    requires |b| == 4
    ensures FromFixed(b) < WORD && EncodeFixed32(FromFixed(b)) == b
  {
    FixedBack(b);
    assert Pow256(4) == WORD;
  }

  /** With checksums verified, a block is read exactly where it was stored: whatever the
      file holds, what is read is followed by a zero and the checksum of both. */
  lemma ReadIffStored(step: CrcStep, file: Bytes, h: Handle, data: Bytes)
    ensures ReadBlock(step, file, h, true) == Some(data) <==> BlockAt(step, file, h, data)
  {
    if BlockAt(step, file, h, data) {
      StoredIsRead(step, file, h, data, true);
    } else if ReadBlock(step, file, h, true) == Some(data) {
      ReadIsStored(step, file, h, data);
    }
  }

  lemma ReadIsStored(step: CrcStep, file: Bytes, h: Handle, data: Bytes)
    requires ReadBlock(step, file, h, true) == Some(data)
    ensures BlockAt(step, file, h, data)
  {
    var contents, n := Read(file, h.offset, h.size + TRAILER_SIZE), h.size;
    assert contents == file[h.offset..h.offset + h.size + TRAILER_SIZE];
    hide Mask, Unmask, Crc, Read, FromFixed;
    assert contents[..n + 1] == data + [NO_COMPRESSION];
    WordBack(contents[n + 1..]);
    SmallWord(FromFixed(contents[n + 1..]));
    MaskUnmask(FromFixed(contents[n + 1..]));
    assert contents == contents[..n + 1] + contents[n + 1..];
    assert contents == data + ([NO_COMPRESSION] + contents[n + 1..]);
  }

  // ------------------------------------------------------------------ the footer

  const FOOTER_SIZE := 48
  const MAGIC := 0xdb4775248b80fb57

  /** Two handles, padded to forty bytes, and the magic number. */
  function FooterBytes(meta: Handle, index: Handle): (r: Bytes)
    requires |HandleBytes(meta)| <= 20 && |HandleBytes(index)| <= 20
    ensures |r| == FOOTER_SIZE
  {
    var handles := HandleBytes(meta) + HandleBytes(index);
    handles + Zeros(40 - |handles|) + EncodeFixed32(MAGIC % WORD) + EncodeFixed32(MAGIC / WORD)
  }

  /** Footer::DecodeFrom: the handles of the metaindex and of the index. */
  function GetFooter(b: Bytes): Option<(Handle, Handle)>
    requires |b| == FOOTER_SIZE
  {
    if FromFixed(b[40..44]) + WORD * FromFixed(b[44..]) != MAGIC then None else
    var meta := GetHandle(b);
    if meta.None? then None else
    var index := GetHandle(meta.value.1);
    if index.None? then None else Some((meta.value.0, index.value.0))
  }

  lemma FooterRoundTrip(meta: Handle, index: Handle)
    requires meta.offset < LONG && meta.size < LONG && index.offset < LONG && index.size < LONG
    ensures |HandleBytes(meta)| <= 20 && |HandleBytes(index)| <= 20
    ensures GetFooter(FooterBytes(meta, index)) == Some((meta, index))
  {
    HandleSize(meta);
    HandleSize(index);
    var a, c := HandleBytes(meta), HandleBytes(index);
    var low, high := EncodeFixed32(MAGIC % WORD), EncodeFixed32(MAGIC / WORD);
    var b, zeros := FooterBytes(meta, index), Zeros(40 - |a + c|);
    hide HandleBytes, GetHandle, FromFixed;
    assert b == a + (c + (zeros + low + high));
    HandleRoundTrip(meta, c + (zeros + low + high));
    HandleRoundTrip(index, zeros + low + high);
    assert b[40..44] == low && b[44..] == high;
  }

  // ------------------------------------------------------------------ the order of keys

  lemma InternalOrder()
    ensures Transitive(InternalLess)
  {
    forall a, b, c {:trigger InternalLess(a, b), InternalLess(b, c)} | InternalLess(a, b) && InternalLess(b, c)
      ensures InternalLess(a, c)
    {
      InternalTransitive(a, b, c);
    }
  }

  ghost predicate SortedKeys(ps: seq<Pair>) {
    && (forall i :: 0 <= i < |ps| ==> IsInternal(ps[i].key))
    && SortedPairs(InternalLess, ps)
  }

  /** How many leading pairs come before a key: the index of the first one at or after it. */
  function FirstAtOrAfter(ps: seq<Pair>, k: Bytes): (p: nat)
    ensures p <= |ps|
  {
    if ps == [] || !InternalLess(ps[0].key, k) then 0 else 1 + FirstAtOrAfter(ps[1..], k)
  }

  lemma {:induction false} FirstIs(ps: seq<Pair>, k: Bytes, p: nat)
    requires p <= |ps| && (forall i :: 0 <= i < p ==> InternalLess(ps[i].key, k))
    requires p < |ps| ==> !InternalLess(ps[p].key, k)
    ensures FirstAtOrAfter(ps, k) == p
  {
    hide InternalLess;
    if p > 0 {
      FirstIs(ps[1..], k, p - 1);
    }
  }

  lemma SortedMore(ps: seq<Pair>, p: Pair)
    requires SortedKeys(ps) && IsInternal(p.key) && (ps != [] ==> InternalLess(ps[|ps| - 1].key, p.key))
    ensures SortedKeys(ps + [p])
  {
    hide InternalLess;
    forall i | 0 <= i < |ps|
      ensures InternalLess(ps[i].key, p.key)
    {
      if i < |ps| - 1 {
        InternalTransitive(ps[i].key, ps[|ps| - 1].key, p.key);
      }
    }
  }

  /** The separator of two blocks is at or after the last key of the first one. */
  lemma AfterLast(last: Bytes, sep: Bytes)
    requires IsInternal(last) && Follows(last, sep)
    ensures sep == last || InternalLess(last, sep)
  {
  }

  lemma BeforeNext(last: Bytes, sep: Bytes, next: Bytes)
    requires IsInternal(last) && IsInternal(next) && InternalLess(last, next) && Separates(last, sep, next)
    ensures InternalLess(sep, next)
  {
  }

  /** An index key that is the last key of its block or has a later user key. */
  ghost predicate Follows(last: Bytes, sep: Bytes)
    requires IsInternal(last)
  {
    sep == last || (IsInternal(sep) && BytesLess(User(last), User(sep)))
  }

  // ------------------------------------------------------------------ the layout of a table

  /** A block in the file: where it is, its bytes, and what they hold. */
  datatype StoredBlock = StoredBlock(handle: Handle, data: Bytes, shape: Shape)

  ghost predicate Stored(step: CrcStep, file: Bytes, w: StoredBlock) {
    && BlockAt(step, file, w.handle, w.data) && BlockOf(w.data, w.shape)
    && w.handle.offset < LONG && w.handle.size < LONG
  }

  ghost predicate AllStored(step: CrcStep, file: Bytes, blocks: seq<StoredBlock>) {
    forall i :: 0 <= i < |blocks| ==> Stored(step, file, blocks[i])
  }

  /** The blocks hold all pairs up to the last cut; block i those between two cuts. */
  ghost predicate Cutting(all: seq<Pair>, cuts: seq<nat>, blocks: seq<StoredBlock>) {
    && |cuts| == |blocks| + 1 && cuts[0] == 0 && cuts[|blocks|] <= |all|
    && forall i {:trigger blocks[i]} :: 0 <= i < |blocks| ==> Between(all, cuts[i], cuts[i + 1], blocks[i].shape.pairs)
  }

  ghost predicate Between(all: seq<Pair>, from: nat, to: nat, ps: seq<Pair>) {
    from < to <= |all| && ps == all[from..to]
  }

  /** The index key at a cut separates the pairs before it from those after it. */
  ghost predicate SepAt(all: seq<Pair>, c: nat, sep: Bytes) {
    && 0 < c <= |all| && IsInternal(all[c - 1].key) && Follows(all[c - 1].key, sep)
    && (c < |all| ==> IsInternal(all[c].key) && Separates(all[c - 1].key, sep, all[c].key))
  }

  ghost predicate IndexFor(all: seq<Pair>, cuts: seq<nat>, blocks: seq<StoredBlock>, index: seq<Pair>) {
    && |index| <= |blocks| && |cuts| == |blocks| + 1
    && forall i :: 0 <= i < |index| ==>
         index[i].value == HandleBytes(blocks[i].handle) && SepAt(all, cuts[i + 1], index[i].key)
  }

  /** The filter was told of every pair, with the offset of its block. */
  ghost predicate Covered(added: seq<Added>, all: seq<Pair>, cuts: seq<nat>, blocks: seq<StoredBlock>) {
    && |added| == |all| && |cuts| == |blocks| + 1
    && forall i {:trigger blocks[i]} :: 0 <= i < |blocks| ==> CoveredBlock(added, all, cuts[i], cuts[i + 1], blocks[i].handle.offset)
  }

  ghost predicate CoveredBlock(added: seq<Added>, all: seq<Pair>, from: nat, to: nat, offset: nat) {
    to <= |added| == |all| && forall m :: from <= m < to ==> added[m] == Added(offset, all[m].key)
  }

  /** The options a table is built with.  The filter works on user keys. */
  datatype Options = Options(blockSize: nat, restartInterval: nat, filter: Option<FilterOptions>)

  datatype FilterOptions = FilterOptions(bitsPerKey: nat, hash: Hash, name: Bytes)

  /** InternalFilterPolicy: filters are made of user keys. */
  function ExtractUserKey(k: Bytes): Bytes {
    if IsInternal(k) then User(k) else k
  }

  function PolicyOf(f: FilterOptions): Policy {
    Policy(f.bitsPerKey, f.hash, ExtractUserKey)
  }

  /** "filter." and the name of the policy. */
  function FilterKey(f: FilterOptions): Bytes {
    [0x66, 0x69, 0x6c, 0x74, 0x65, 0x72, 0x2e] + f.name
  }

  /** The one entry of the metaindex, if the table has a filter. */
  function MetaPairs(options: Options, filter: Handle): seq<Pair> {
    if options.filter.None? then [] else [Pair(FilterKey(options.filter.value), HandleBytes(filter))]
  }

  /** The filter in the file, and the keys it was told of. */
  datatype FilterPart = FilterPart(handle: Handle, contents: Bytes, filters: seq<Bytes>, added: seq<Added>)

  ghost predicate FilterStored(step: CrcStep, options: Options, file: Bytes, all: seq<Pair>, cuts: seq<nat>, blocks: seq<StoredBlock>,
                               part: Option<FilterPart>) {
    && (options.filter.None? <==> part.None?)
    && (part.Some? ==>
          var f := part.value;
          && BlockAt(step, file, f.handle, f.contents) && f.handle.offset < LONG && f.handle.size < LONG
          && FilterBlock(f.contents, f.filters) && AddedOk(PolicyOf(options.filter.value), f.added, f.filters, [])
          && Covered(f.added, all, cuts, blocks))
  }

  datatype Layout = Layout(all: seq<Pair>, cuts: seq<nat>, blocks: seq<StoredBlock>, index: StoredBlock, meta: StoredBlock, filter: Option<FilterPart>)

  /** The bytes are those of a finished table with these contents. */
  ghost predicate TableFile(step: CrcStep, options: Options, file: Bytes, l: Layout) {
    && SortedKeys(l.all) && Cutting(l.all, l.cuts, l.blocks) && AllStored(step, file, l.blocks)
    && |l.cuts| == |l.blocks| + 1 && l.cuts[|l.blocks|] == |l.all|
    && Stored(step, file, l.index) && |l.index.shape.pairs| == |l.blocks|
    && IndexFor(l.all, l.cuts, l.blocks, l.index.shape.pairs)
    && FilterStored(step, options, file, l.all, l.cuts, l.blocks, l.filter)
    && Stored(step, file, l.meta)
    && l.meta.shape.pairs == MetaPairs(options, if l.filter.Some? then l.filter.value.handle else Handle(0, 0))
    && |HandleBytes(l.meta.handle)| <= 20 && |HandleBytes(l.index.handle)| <= 20
    && |file| >= FOOTER_SIZE && file[|file| - FOOTER_SIZE..] == FooterBytes(l.meta.handle, l.index.handle)
  }

  lemma AllStoredStays(step: CrcStep, file: Bytes, more: Bytes, blocks: seq<StoredBlock>)
    requires AllStored(step, file, blocks)
    ensures AllStored(step, file + more, blocks)
  {
    hide BlockAt, BlockOf;
    forall i | 0 <= i < |blocks|
      ensures Stored(step, file + more, blocks[i])
    {
      BlockStays(step, file, more, blocks[i].handle, blocks[i].data);
    }
  }
}
