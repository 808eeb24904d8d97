/** Reading a table file (table/table.cc). */
module TableReaders {
  import opened Keys
  import opened Coding
  import opened Logs
  import opened Blocks
  import opened Filters
  import opened Separators
  import opened Tables
  import opened TableBuilders

  // ------------------------------------------------------------------ what the index tells

  /** The first pair at or after a key splits the pairs. */
  lemma {:induction false} FirstSplits(ps: seq<Pair>, k: Bytes)
    ensures forall i :: 0 <= i < FirstAtOrAfter(ps, k) ==> InternalLess(ps[i].key, k)
    ensures FirstAtOrAfter(ps, k) < |ps| ==> !InternalLess(ps[FirstAtOrAfter(ps, k)].key, k)
  {
    hide InternalLess;
    if ps != [] && InternalLess(ps[0].key, k) {
      FirstSplits(ps[1..], k);
      assert forall i :: 1 <= i < |ps| ==> ps[i] == ps[1..][i - 1];
    }
  }

  /** All pairs of the blocks before come before a key that is after their index key. */
  lemma BeforeBlock(l: Layout, n: nat, k: Bytes)
    requires SortedKeys(l.all) && Cutting(l.all, l.cuts, l.blocks) && IndexFor(l.all, l.cuts, l.blocks, l.index.shape.pairs)
    requires 0 < n <= |l.index.shape.pairs| && InternalLess(l.index.shape.pairs[n - 1].key, k)
    ensures forall q :: 0 <= q < l.cuts[n] ==> InternalLess(l.all[q].key, k)
  {
    var c, sep := l.cuts[n], l.index.shape.pairs[n - 1].key;
    hide InternalLess, Cutting;
    assert SepAt(l.all, l.cuts[n - 1 + 1], sep);
    AfterLast(l.all[c - 1].key, sep);
    if sep != l.all[c - 1].key {
      InternalTransitive(l.all[c - 1].key, sep, k);
    }
    forall q | 0 <= q < c
      ensures InternalLess(l.all[q].key, k)
    {
      if q < c - 1 {
        InternalTransitive(l.all[q].key, l.all[c - 1].key, k);
      }
    }
  }

  /** A key between the last pair of a block and its index key is at or before the next
      block, whose first pair has another user key. */
  lemma AfterBlock(last: Bytes, sep: Bytes, next: Bytes, k: Bytes)
    requires IsInternal(last) && IsInternal(next) && IsInternal(k) && Separates(last, sep, next)
    requires InternalLess(last, k) && !InternalLess(sep, k)
    ensures !InternalLess(next, k) && User(next) != User(k)
  {
    hide BytesLess, User;
    BytesTotal(User(sep), User(next));
    if InternalLess(next, k) && BytesLess(User(next), User(k)) {
      BytesTransitive(User(sep), User(next), User(k));
    }
  }

  /** A stretch of the pairs holds the first one at or after a key, or that pair has
      another user key. */
  ghost predicate Located(all: seq<Pair>, from: nat, ps: seq<Pair>, k: Bytes)
    requires IsInternal(k)
  {
    var p, j := FirstAtOrAfter(all, k), FirstAtOrAfter(ps, k);
    && (j < |ps| ==> p == from + j < |all| && all[p] == ps[j])
    && (j == |ps| && p < |all| ==> IsInternal(all[p].key) && User(all[p].key) != User(k))
  }

  /** The block that the index leads to holds the first pair at or after the key, or that
      pair has another user key. */
  lemma FoundInBlock(l: Layout, n: nat, k: Bytes)
    requires SortedKeys(l.all) && Cutting(l.all, l.cuts, l.blocks) && IndexFor(l.all, l.cuts, l.blocks, l.index.shape.pairs)
    requires n < |l.blocks| && |l.cuts| == |l.blocks| + 1
    requires n < |l.index.shape.pairs| && IsInternal(k) && !InternalLess(l.index.shape.pairs[n].key, k)
    requires n > 0 ==> InternalLess(l.index.shape.pairs[n - 1].key, k)
    ensures Between(l.all, l.cuts[n], l.cuts[n + 1], l.blocks[n].shape.pairs)
    ensures Located(l.all, l.cuts[n], l.blocks[n].shape.pairs, k)
  {
    hide *;
    BlockBetween(l, n);
    EarlierBlocks(l, n, k);
    if FirstAtOrAfter(l.blocks[n].shape.pairs, k) < |l.blocks[n].shape.pairs| {
      FoundHere(l.all, l.cuts[n], l.cuts[n + 1], l.blocks[n].shape.pairs, k);
    } else {
      FoundNext(l, n, k);
    }
  }

  lemma FoundHere(all: seq<Pair>, from: nat, to: nat, ps: seq<Pair>, k: Bytes)
    requires Between(all, from, to, ps) && IsInternal(k) && FirstAtOrAfter(ps, k) < |ps|
    requires forall q :: 0 <= q < from ==> InternalLess(all[q].key, k)
    ensures Located(all, from, ps, k)
  {
    var j := FirstAtOrAfter(ps, k);
    FirstSplits(ps, k);
    hide InternalLess, FirstAtOrAfter;
    BlockThenAll(all, from, to, j, k);
    assert all[from + j] == ps[j];
    FirstIs(all, k, from + j);
  }

  lemma FoundNext(l: Layout, n: nat, k: Bytes)
    requires SortedKeys(l.all) && Cutting(l.all, l.cuts, l.blocks) && IndexFor(l.all, l.cuts, l.blocks, l.index.shape.pairs)
    requires n < |l.blocks| && |l.cuts| == |l.blocks| + 1
    requires n < |l.index.shape.pairs| && IsInternal(k) && !InternalLess(l.index.shape.pairs[n].key, k)
    requires Between(l.all, l.cuts[n], l.cuts[n + 1], l.blocks[n].shape.pairs)
    requires forall q :: 0 <= q < l.cuts[n] ==> InternalLess(l.all[q].key, k)
    requires FirstAtOrAfter(l.blocks[n].shape.pairs, k) == |l.blocks[n].shape.pairs|
    ensures Located(l.all, l.cuts[n], l.blocks[n].shape.pairs, k)
  {
    hide InternalLess, Cutting, FirstAtOrAfter, IndexFor, SortedKeys, User;
    FirstSplits(l.blocks[n].shape.pairs, k);
    BlockThenAll(l.all, l.cuts[n], l.cuts[n + 1], l.cuts[n + 1] - l.cuts[n], k);
    AtNext(l, n, k);
  }

  lemma BlockBetween(l: Layout, n: nat)
    requires Cutting(l.all, l.cuts, l.blocks) && n < |l.blocks|
    ensures Between(l.all, l.cuts[n], l.cuts[n + 1], l.blocks[n].shape.pairs)
  {
  }

  lemma EarlierBlocks(l: Layout, n: nat, k: Bytes)
    requires SortedKeys(l.all) && Cutting(l.all, l.cuts, l.blocks) && IndexFor(l.all, l.cuts, l.blocks, l.index.shape.pairs)
    requires n <= |l.index.shape.pairs| && (n > 0 ==> InternalLess(l.index.shape.pairs[n - 1].key, k))
    ensures l.cuts[n] <= |l.all| && forall q :: 0 <= q < l.cuts[n] ==> InternalLess(l.all[q].key, k)
  {
    hide InternalLess;
    if n > 0 {
      BeforeBlock(l, n, k);
    }
  }

  lemma BlockThenAll(all: seq<Pair>, from: nat, to: nat, j: nat, k: Bytes)
    requires from <= to <= |all| && j <= to - from && forall i :: 0 <= i < j ==> InternalLess(all[from..to][i].key, k)
    requires forall q :: 0 <= q < from ==> InternalLess(all[q].key, k)
    ensures forall q :: 0 <= q < from + j ==> InternalLess(all[q].key, k)
  {
    hide InternalLess;
    forall q | from <= q < from + j
      ensures InternalLess(all[q].key, k)
    {
      assert all[q] == all[from..to][q - from];
    }
  }

  lemma AtNext(l: Layout, n: nat, k: Bytes)
    requires SortedKeys(l.all) && Cutting(l.all, l.cuts, l.blocks) && IndexFor(l.all, l.cuts, l.blocks, l.index.shape.pairs)
    requires n < |l.index.shape.pairs| && IsInternal(k) && !InternalLess(l.index.shape.pairs[n].key, k)
    requires l.cuts[n + 1] <= |l.all| && forall q :: 0 <= q < l.cuts[n + 1] ==> InternalLess(l.all[q].key, k)
    ensures FirstAtOrAfter(l.all, k) == l.cuts[n + 1]
    ensures l.cuts[n + 1] < |l.all| ==> IsInternal(l.all[l.cuts[n + 1]].key) && User(l.all[l.cuts[n + 1]].key) != User(k)
  {
    var c, sep := l.cuts[n + 1], l.index.shape.pairs[n].key;
    hide InternalLess, Cutting, FirstAtOrAfter, User, Separates;
    assert SepAt(l.all, c, sep);
    if c < |l.all| {
      AfterBlock(l.all[c - 1].key, sep, l.all[c].key, k);
    }
    FirstIs(l.all, k, c);
  }

  /** A key after the last index key is after all pairs. */
  lemma NotInTable(l: Layout, k: Bytes)
    requires SortedKeys(l.all) && Cutting(l.all, l.cuts, l.blocks) && IndexFor(l.all, l.cuts, l.blocks, l.index.shape.pairs)
    requires |l.index.shape.pairs| == |l.blocks| && l.cuts[|l.blocks|] == |l.all|
    requires l.blocks != [] ==> InternalLess(l.index.shape.pairs[|l.blocks| - 1].key, k)
    ensures FirstAtOrAfter(l.all, k) == |l.all|
  {
    hide InternalLess, IndexFor, FirstAtOrAfter;
    if l.blocks != [] {
      BeforeBlock(l, |l.blocks|, k);
    }
    FirstIs(l.all, k, |l.all|);
  }

  /** The index itself is sorted. */
  lemma IndexSorted(l: Layout)
    requires SortedKeys(l.all) && Cutting(l.all, l.cuts, l.blocks) && IndexFor(l.all, l.cuts, l.blocks, l.index.shape.pairs)
    ensures SortedPairs(InternalLess, l.index.shape.pairs)
  {
    var index := l.index.shape.pairs;
    forall i, j | 0 <= i < j < |index|
      ensures InternalLess(index[i].key, index[j].key)
    {
      SepsOrdered(l, i, j);
    }
  }

  lemma SepsOrdered(l: Layout, i: nat, j: nat)
    requires SortedKeys(l.all) && Cutting(l.all, l.cuts, l.blocks) && IndexFor(l.all, l.cuts, l.blocks, l.index.shape.pairs)
    requires i < j < |l.index.shape.pairs|
    ensures InternalLess(l.index.shape.pairs[i].key, l.index.shape.pairs[j].key)
  {
    var a, b, si, sj := l.cuts[i + 1], l.cuts[j + 1], l.index.shape.pairs[i].key, l.index.shape.pairs[j].key;
    CutsGrow(l.all, l.cuts, l.blocks, i + 1, j + 1);
    hide InternalLess, Cutting, Separates, Follows;
    assert SepAt(l.all, a, si) && SepAt(l.all, b, sj);
    BeforeNext(l.all[a - 1].key, si, l.all[a].key);
    AfterLast(l.all[b - 1].key, sj);
    if a < b - 1 {
      InternalTransitive(si, l.all[a].key, l.all[b - 1].key);
    }
    if sj != l.all[b - 1].key {
      InternalTransitive(si, l.all[b - 1].key, sj);
    }
  }

  lemma BlockIsSorted(all: seq<Pair>, from: nat, to: nat, ps: seq<Pair>)
    requires SortedKeys(all) && Between(all, from, to, ps)
    ensures SortedPairs(InternalLess, ps)
  {
    hide InternalLess;
    forall i, j | 0 <= i < j < |ps|
      ensures InternalLess(ps[i].key, ps[j].key)
    {
      assert ps[i] == all[from + i] && ps[j] == all[from + j];
    }
  }

  // ------------------------------------------------------------------ what the filter tells

  lemma SameAnswer(policy: Policy, contents: Bytes, offset: nat, num: nat, index: nat, a: Bytes, b: Bytes)
    requires policy.extract(a) == policy.extract(b)
    ensures Answer(policy, contents, offset, num, index, a) == Answer(policy, contents, offset, num, index, b)
  {
    hide Matches, Fixed32In;
  }

  /** If a block holds an entry with the user key of k, its filter does not reject k. */
  lemma FilterKeeps(options: Options, l: Layout, n: nat, m: nat, k: Bytes)
    requires options.filter.Some? && l.filter.Some? && IsInternal(k) && n < |l.blocks|
    requires FilterBlock(l.filter.value.contents, l.filter.value.filters)
    requires AddedOk(PolicyOf(options.filter.value), l.filter.value.added, l.filter.value.filters, [])
    requires Covered(l.filter.value.added, l.all, l.cuts, l.blocks) && l.cuts[n] <= m < l.cuts[n + 1] <= |l.all|
    requires IsInternal(l.all[m].key) && User(l.all[m].key) == User(k)
    ensures var f := l.filter.value;
            Answer(PolicyOf(options.filter.value), f.contents, |Join(f.filters)|, |f.filters|, l.blocks[n].handle.offset / FILTER_BASE, k)
  {
    var f, policy := l.filter.value, PolicyOf(options.filter.value);
    assert CoveredBlock(f.added, l.all, l.cuts[n], l.cuts[n + 1], l.blocks[n].handle.offset);
    assert f.added[m] == Added(l.blocks[n].handle.offset, l.all[m].key);
    hide Covered, FilterBlock, AddedOk, Answer, Join, User;
    var index := l.blocks[n].handle.offset / FILTER_BASE;
    AddedKeysMatch(policy, f.contents, f.filters, f.added, m, index);
    SameAnswer(policy, f.contents, |Join(f.filters)|, |f.filters|, index, l.all[m].key, k);
  }

  // ------------------------------------------------------------------ opening a table

  /** The footer of a file, and the bytes of its index block. */
  function ReadIndex(step: CrcStep, file: Bytes, verifyChecksums: bool): Option<(Handle, Bytes)> {
    if |file| < FOOTER_SIZE then None else
    var footer := GetFooter(file[|file| - FOOTER_SIZE..]);
    if footer.None? then None else
    var index := ReadBlock(step, file, footer.value.1, verifyChecksums);
    if index.None? then None else Some((footer.value.0, index.value))
  }

  lemma IndexIsRead(step: CrcStep, options: Options, file: Bytes, l: Layout, verifyChecksums: bool)
    requires TableFile(step, options, file, l)
    ensures ReadIndex(step, file, verifyChecksums) == Some((l.meta.handle, l.index.data))
  {
    hide GetFooter, FooterBytes, HandleBytes, ReadBlock, BlockAt, BlockOf;
    assert Stored(step, file, l.meta) && Stored(step, file, l.index);
    FooterRoundTrip(l.meta.handle, l.index.handle);
    StoredIsRead(step, file, l.index.handle, l.index.data, verifyChecksums);
  }

  /** The reader has found the array of a filter block, and its base. */
  ghost predicate ReaderOk(r: FilterBlockReader, options: Options, f: FilterPart)
    requires options.filter.Some?
  {
    && r.policy == PolicyOf(options.filter.value) && r.contents == f.contents
    && r.offset == |Join(f.filters)| && r.num == |f.filters| && r.baseLg == FILTER_BASE_LG as nat
  }

  /** Options under which a table may be opened: the policies agree if their names do. */
  ghost predicate Agree(options: Options, built: Options) {
    options.filter.Some? && built.filter.Some? && options.filter.value.name == built.filter.value.name ==> options.filter == built.filter
  }

  /** Table::ReadFilter. */
  method ReadFilter(step: CrcStep, options: Options, file: Bytes, handleValue: Bytes, ghost f: FilterPart)
    returns (filter: FilterBlockReader?)
    requires options.filter.Some? && handleValue == HandleBytes(f.handle) && f.handle.offset < LONG && f.handle.size < LONG
    requires BlockAt(step, file, f.handle, f.contents) && FilterBlock(f.contents, f.filters)
    ensures filter != null && ReaderOk(filter, options, f)
  {
    hide GetHandle, HandleBytes, ReadBlock, BlockAt, FilterBlock, Join, FromFixed;
    HandleRoundTrip(f.handle, []);
    assert handleValue + [] == handleValue;
    var handle := GetHandle(handleValue).value.0;
    StoredIsRead(step, file, f.handle, f.contents, false);
    var block := ReadBlock(step, file, handle, false).value;
    ReaderFinds(f.contents, f.filters);
    filter := new FilterBlockReader(PolicyOf(options.filter.value), block);
  }

  lemma BytesOrder()
    ensures Transitive(BytesLess)
  {
    forall a, b, c {:trigger BytesLess(a, b), BytesLess(b, c)} | BytesLess(a, b) && BytesLess(b, c)
      ensures BytesLess(a, c)
    {
      BytesTransitive(a, b, c);
    }
  }

  /** Table::ReadMeta: the filter of the policy, if the table has one of that name. */
  method ReadMeta(step: CrcStep, options: Options, ghost built: Options, file: Bytes, metaHandle: Handle, ghost l: Layout)
    returns (filter: FilterBlockReader?)
    requires TableFile(step, built, file, l) && metaHandle == l.meta.handle && Agree(options, built)
    ensures filter == null ==> options.filter.None? || built.filter.None? || options.filter.value.name != built.filter.value.name
    ensures filter != null ==> options.filter.Some? && options.filter == built.filter && ReaderOk(filter, options, l.filter.value)
  {
    hide ReadBlock, BlockAt, BlockOf, BlockIter.Ok, BytesLess, HandleBytes, FilterBlock, Transitive, ReaderOk;
    if options.filter.None? {
      return null;
    }
    MetaParts(step, built, file, l);
    var meta := ReadBlock(step, file, metaHandle, false).value;
    var iter := new BlockIter(BytesLess, meta, l.meta.shape);
    var key := FilterKey(options.filter.value);
    BytesOrder();
    assert SortedPairs(BytesLess, l.meta.shape.pairs);
    iter.Seek(key);
    assert iter.pos <= |l.meta.shape.pairs| by { iter.PosAtMost(); }
    iter.ValidIff();
    AtFilterKey(options, built, l, iter.pos);
    if iter.Valid() {
      iter.PairAt(iter.pos);
      if iter.key == key {
        filter := ReadFilter(step, options, file, iter.value, l.filter.value);
        return;
      }
    }
    return null;
  }

  /** Every seek for the filter key ends at its pair if the metaindex holds it. */
  lemma AtFilterKey(options: Options, built: Options, l: Layout, pos: nat)
    requires options.filter.Some? && pos <= |l.meta.shape.pairs| && |l.meta.shape.pairs| <= 1
    requires l.meta.shape.pairs == MetaPairs(built, if l.filter.Some? then l.filter.value.handle else Handle(0, 0))
    requires forall i :: 0 <= i < pos ==> BytesLess(l.meta.shape.pairs[i].key, FilterKey(options.filter.value))
    ensures built.filter.Some? && options.filter.value.name == built.filter.value.name ==> pos < |l.meta.shape.pairs|
    ensures pos < |l.meta.shape.pairs| && l.meta.shape.pairs[pos].key == FilterKey(options.filter.value) ==>
              built.filter.Some? && options.filter.value.name == built.filter.value.name
  {
    hide BytesLess, HandleBytes;
    if built.filter.Some? {
      var a, b := FilterKey(options.filter.value), FilterKey(built.filter.value);
      BytesTotal(a, b);
      assert l.meta.shape.pairs[0].key == b;
      assert a[7..] == options.filter.value.name && b[7..] == built.filter.value.name;
    }
  }

  lemma MetaParts(step: CrcStep, built: Options, file: Bytes, l: Layout)
    requires TableFile(step, built, file, l)
    ensures ReadBlock(step, file, l.meta.handle, false) == Some(l.meta.data) && BlockOf(l.meta.data, l.meta.shape)
    ensures |l.meta.shape.pairs| <= 1
    ensures l.meta.shape.pairs == MetaPairs(built, if l.filter.Some? then l.filter.value.handle else Handle(0, 0))
    ensures built.filter.Some? ==>
              && l.filter.Some? && l.meta.shape.pairs[0].value == HandleBytes(l.filter.value.handle)
              && BlockAt(step, file, l.filter.value.handle, l.filter.value.contents)
              && l.filter.value.handle.offset < LONG && l.filter.value.handle.size < LONG
              && FilterBlock(l.filter.value.contents, l.filter.value.filters)
  {
    hide ReadBlock, BlockAt, BlockOf, HandleBytes, FilterBlock, AddedOk, Covered, SortedKeys, IndexFor;
    assert Stored(step, file, l.meta);
    StoredIsRead(step, file, l.meta.handle, l.meta.data, false);
  }

  // ------------------------------------------------------------------ looking keys up

  /** Nothing but the first pair at or after the key is reported, and that pair is if it
      has the user key of the key. */
  ghost predicate Reported(all: seq<Pair>, k: Bytes, r: Option<Pair>)
    requires IsInternal(k)
  {
    var p := FirstAtOrAfter(all, k);
    && (r.Some? ==> p < |all| && r.value == all[p])
    && (p < |all| && IsInternal(all[p].key) && User(all[p].key) == User(k) ==> r.Some?)
  }

  function FirstIn(ps: seq<Pair>, k: Bytes): Option<Pair> {
    var j := FirstAtOrAfter(ps, k);
    if j < |ps| then Some(ps[j]) else None
  }

  lemma BlockReported(all: seq<Pair>, from: nat, ps: seq<Pair>, k: Bytes)
    requires IsInternal(k) && Located(all, from, ps, k)
    ensures Reported(all, k, FirstIn(ps, k))
  {
    hide FirstAtOrAfter, User;
  }

  lemma IndexParts(step: CrcStep, built: Options, file: Bytes, l: Layout)
    requires TableFile(step, built, file, l)
    ensures BlockOf(l.index.data, l.index.shape) && SortedPairs(InternalLess, l.index.shape.pairs)
    ensures |l.cuts| == |l.blocks| + 1 && |l.index.shape.pairs| == |l.blocks|
  {
    hide BlockOf, BlockAt, SortedKeys, Cutting, IndexFor, SortedPairs, FilterStored;
    IndexSorted(l);
  }

  lemma NothingThere(step: CrcStep, built: Options, file: Bytes, l: Layout, k: Bytes)
    requires TableFile(step, built, file, l) && IsInternal(k)
    requires forall i :: 0 <= i < |l.index.shape.pairs| ==> InternalLess(l.index.shape.pairs[i].key, k)
    ensures Reported(l.all, k, None)
  {
    hide Stored, SortedKeys, Cutting, IndexFor, FilterStored, InternalLess, FirstAtOrAfter;
    NotInTable(l, k);
  }

  /** Where the index leads. */
  lemma Leads(step: CrcStep, built: Options, file: Bytes, l: Layout, n: nat, k: Bytes)
    requires TableFile(step, built, file, l) && IsInternal(k) && n < |l.index.shape.pairs|
    requires forall i :: 0 <= i < n ==> InternalLess(l.index.shape.pairs[i].key, k)
    requires !InternalLess(l.index.shape.pairs[n].key, k)
    ensures n < |l.blocks| && |l.cuts| == |l.blocks| + 1
    ensures Between(l.all, l.cuts[n], l.cuts[n + 1], l.blocks[n].shape.pairs) && Located(l.all, l.cuts[n], l.blocks[n].shape.pairs, k)
  {
    hide Stored, SortedKeys, Cutting, IndexFor, FilterStored, InternalLess, Located, Between;
    FoundInBlock(l, n, k);
  }

  lemma BlockParts(step: CrcStep, built: Options, file: Bytes, l: Layout, n: nat)
    requires TableFile(step, built, file, l) && n < |l.blocks|
    ensures l.index.shape.pairs[n].value == HandleBytes(l.blocks[n].handle)
    ensures Stored(step, file, l.blocks[n]) && SortedPairs(InternalLess, l.blocks[n].shape.pairs)
  {
    hide SortedKeys, Stored, FilterStored, HandleBytes, SortedPairs, SepAt;
    assert l.blocks[n] == l.blocks[n];
    BlockIsSorted(l.all, l.cuts[n], l.cuts[n + 1], l.blocks[n].shape.pairs);
  }

  /** When the filter rejects the key, there is nothing to report. */
  lemma Rejected(step: CrcStep, built: Options, file: Bytes, l: Layout, n: nat, k: Bytes)
    requires TableFile(step, built, file, l) && built.filter.Some? && l.filter.Some? && IsInternal(k) && n < |l.blocks|
    requires |l.cuts| == |l.blocks| + 1 && Between(l.all, l.cuts[n], l.cuts[n + 1], l.blocks[n].shape.pairs)
    requires Located(l.all, l.cuts[n], l.blocks[n].shape.pairs, k)
    requires var f := l.filter.value;
             !Answer(PolicyOf(built.filter.value), f.contents, |Join(f.filters)|, |f.filters|, l.blocks[n].handle.offset / FILTER_BASE, k)
    ensures Reported(l.all, k, None)
  {
    hide Stored, SortedKeys, Cutting, IndexFor, FilterBlock, AddedOk, Covered, Answer, Join, FirstAtOrAfter, User;
    var p := FirstAtOrAfter(l.all, k);
    if p < |l.all| && IsInternal(l.all[p].key) && User(l.all[p].key) == User(k) {
      FilterKeeps(built, l, n, p, k);
    }
  }


  class Table {
    const step: CrcStep
    const options: Options
    const file: Bytes
    const indexBlock: Bytes
    const filter: FilterBlockReader?
    ghost const built: Options
    ghost const layout: Layout

    ghost predicate Ok() {
      && TableFile(step, built, file, layout) && indexBlock == layout.index.data
      && (filter != null ==> options.filter.Some? && options.filter == built.filter && layout.filter.Some?
                             && ReaderOk(filter, options, layout.filter.value))
    }

    constructor (step: CrcStep, options: Options, file: Bytes, indexBlock: Bytes, filter: FilterBlockReader?,
                 ghost built: Options, ghost layout: Layout)
      ensures this.step == step && this.options == options && this.file == file && this.indexBlock == indexBlock
      ensures this.filter == filter && this.built == built && this.layout == layout
    {
      this.step, this.options, this.file, this.indexBlock, this.filter := step, options, file, indexBlock, filter;
      this.built, this.layout := built, layout;
    }

    /** Reports the first pair at or after an internal key, whenever it has the user key
        of that key; it reports no other pair. */
    method InternalGet(k: Bytes) returns (r: Option<Pair>)
      requires Ok() && IsInternal(k)
      ensures Reported(layout.all, k, r)
    {
      hide *;
      TableOk();
      IndexParts(step, built, file, layout);
      var iiter := new BlockIter(InternalLess, indexBlock, layout.index.shape);
      InternalOrder();
      iiter.Seek(k);
      iiter.ValidIff();
      iiter.PosAtMost();
      ghost var n := iiter.pos;
      if !iiter.Valid() {
        NothingThere(step, built, file, layout, k);
        return None;
      }
      iiter.PairAt(n);
      Leads(step, built, file, layout, n, k);
      BlockParts(step, built, file, layout, n);
      var handleValue := iiter.value;
      var mayMatch := AskFilter(handleValue, n, k);
      if !mayMatch {
        return None;
      }
      r := SeekInBlock(handleValue, n, k);
      BlockReported(layout.all, layout.cuts[n], layout.blocks[n].shape.pairs, k);
    }

    /** Asks the filter, if there is one, for the block that starts at the handle's offset. */
    method AskFilter(handleValue: Bytes, ghost n: nat, k: Bytes) returns (mayMatch: bool)
      requires Ok() && IsInternal(k) && n < |layout.blocks| && handleValue == HandleBytes(layout.blocks[n].handle)
      requires |layout.cuts| == |layout.blocks| + 1 && Stored(step, file, layout.blocks[n])
      requires Between(layout.all, layout.cuts[n], layout.cuts[n + 1], layout.blocks[n].shape.pairs)
      requires Located(layout.all, layout.cuts[n], layout.blocks[n].shape.pairs, k)
      ensures !mayMatch ==> Reported(layout.all, k, None)
    {
      hide TableFile, GetHandle, HandleBytes, BlockAt, BlockOf, Answer, Located, Between, Reported, Shifted, Join;
      HandleRoundTrip(layout.blocks[n].handle, []);
      assert handleValue + [] == handleValue;
      var handle := GetHandle(handleValue);
      if filter == null || handle.None? {
        return true;
      }
      mayMatch := filter.MayMatch(handle.value.0.offset, k);
      BaseIs(handle.value.0.offset);
      if !mayMatch {
        Rejected(step, built, file, layout, n, k);
      }
    }

    /** Table::BlockReader and a seek in the block. */
    method SeekInBlock(handleValue: Bytes, ghost n: nat, k: Bytes) returns (r: Option<Pair>)
      requires n < |layout.blocks| && handleValue == HandleBytes(layout.blocks[n].handle) && Stored(step, file, layout.blocks[n])
      requires SortedPairs(InternalLess, layout.blocks[n].shape.pairs)
      ensures r == FirstIn(layout.blocks[n].shape.pairs, k)
    {
      hide GetHandle, HandleBytes, ReadBlock, BlockAt, BlockOf, BlockIter.Ok, InternalLess, SortedPairs, Transitive, FirstAtOrAfter;
      ghost var w := layout.blocks[n];
      HandleRoundTrip(w.handle, []);
      assert handleValue + [] == handleValue;
      var handle := GetHandle(handleValue).value.0;
      StoredIsRead(step, file, w.handle, w.data, false);
      var block := ReadBlock(step, file, handle, false).value;
      var blockIter := new BlockIter(InternalLess, block, w.shape);
      InternalOrder();
      blockIter.Seek(k);
      blockIter.ValidIff();
      blockIter.PosAtMost();
      FirstIs(w.shape.pairs, k, blockIter.pos);
      if blockIter.Valid() {
        blockIter.PairAt(blockIter.pos);
        return Some(Pair(blockIter.key, blockIter.value));
      }
      return None;
    }

    lemma TableOk()
      requires Ok()
      ensures TableFile(step, built, file, layout) && indexBlock == layout.index.data
    {
    }
  }

  /** Table::Open. */
  method Open(step: CrcStep, options: Options, file: Bytes, ghost built: Options, ghost l: Layout) returns (table: Option<Table>)
    requires TableFile(step, built, file, l) && Agree(options, built)
    ensures table.Some? && table.value.Ok() && table.value.layout == l
    ensures built.filter.Some? && options.filter == built.filter ==> table.value.filter != null
  {
    hide TableFile, ReadIndex, ReaderOk;
    IndexIsRead(step, built, file, l, false);
    var parts := ReadIndex(step, file, false);
    if parts.None? {
      return None;
    }
    MetaFilter(step, built, file, l);
    var filter := ReadMeta(step, options, built, file, parts.value.0, l);
    var t := new Table(step, options, file, parts.value.1, filter, built, l);
    return Some(t);
  }

  lemma MetaFilter(step: CrcStep, built: Options, file: Bytes, l: Layout)
    requires TableFile(step, built, file, l)
    ensures built.filter.Some? ==> l.filter.Some?
  {
    hide Stored, SortedKeys, Cutting, IndexFor, BlockAt, FilterBlock, AddedOk, Covered;
  }

  /** A table built of any sorted pairs, with any options, is opened and asked for a key;
      only pairs that weigh four gigabytes make no table. */
  method BuildAndGet(step: CrcStep, options: Options, ps: seq<Pair>, k: Bytes) returns (r: Option<Option<Pair>>)
    requires options.restartInterval >= 1 && SortedKeys(ps) && IsInternal(k)
    ensures r.Some? ==> Reported(ps, k, r.value)
    ensures r.None? ==> TableWeight(options, ps) >= WORD
  {
    hide *;
    var builder := new TableBuilder(step, options);
    for i := 0 to |ps|
      invariant fresh(builder) && fresh(builder.dataBlock) && fresh(builder.indexBlock)
      invariant builder.filterBlock != null ==> fresh(builder.filterBlock)
      invariant builder.options == options && (builder.status.Fine? ==> builder.Ok() && builder.all == ps[..i])
      invariant builder.status.TooLarge? ==> TableWeight(options, ps[..i]) >= WORD
    {
      NextKey(ps, i);
      WeightMore(options, ps[..i], ps[i]);
      assert Pair(ps[i].key, ps[i].value) == ps[i];
      builder.Add(ps[i].key, ps[i].value);
    }
    assert ps[..|ps|] == ps;
    ghost var l := builder.Finish();
    if !builder.status.Fine? {
      // a block of four gigabytes or more
      return None;
    }
    SelfAgree(options);
    var table := Open(step, options, builder.file, options, l);
    var found := table.value.InternalGet(k);
    return Some(found);
  }

  lemma SelfAgree(options: Options)
    ensures Agree(options, options)
  {
  }

  lemma NextKey(ps: seq<Pair>, i: nat)
    requires SortedKeys(ps) && i < |ps|
    ensures IsInternal(ps[i].key) && (i > 0 ==> InternalLess(ps[..i][i - 1].key, ps[i].key)) && ps[..i + 1] == ps[..i] + [ps[i]]
  {
  }
}
