/** Writing a table file (table/table_builder.cc). */
module TableBuilders {
  import opened Keys
  import opened Coding
  import opened Logs
  import opened Blocks
  import opened Filters
  import opened Separators
  import opened Tables

  /** LevelDB has no status for blocks too large for offsets of 32 bits; a builder that
      meets one stops with TooLarge. */
  datatype Status = Fine | TooLarge(size: nat)

  // ------------------------------------------------------------------ steps of building

  /** One more pair in the block that is being filled. */
  lemma CuttingMore(all: seq<Pair>, cuts: seq<nat>, blocks: seq<StoredBlock>, p: Pair)
    requires Cutting(all, cuts, blocks)
    ensures Cutting(all + [p], cuts, blocks)
    ensures (all + [p])[cuts[|blocks|]..] == all[cuts[|blocks|]..] + [p]
  {
    forall i {:trigger blocks[i]} | 0 <= i < |blocks|
      ensures Between(all + [p], cuts[i], cuts[i + 1], blocks[i].shape.pairs)
    {
      assert Between(all, cuts[i], cuts[i + 1], blocks[i].shape.pairs);
      assert all[cuts[i]..cuts[i + 1]] == (all + [p])[cuts[i]..cuts[i + 1]];
    }
  }

  /** The block that was being filled is written. */
  lemma CuttingBlock(all: seq<Pair>, cuts: seq<nat>, blocks: seq<StoredBlock>, w: StoredBlock)
    requires Cutting(all, cuts, blocks) && w.shape.pairs == all[cuts[|blocks|]..] != []
    ensures Cutting(all, cuts + [|all|], blocks + [w])
  {
    var cuts', blocks' := cuts + [|all|], blocks + [w];
    forall i {:trigger blocks'[i]} | 0 <= i < |blocks'|
      ensures Between(all, cuts'[i], cuts'[i + 1], blocks'[i].shape.pairs)
    {
      if i < |blocks| {
        assert blocks'[i] == blocks[i] && cuts'[i] == cuts[i] && cuts'[i + 1] == cuts[i + 1];
      }
    }
  }

  /** Cuts grow, and each is after the first pair. */
  lemma {:induction false} CutsGrow(all: seq<Pair>, cuts: seq<nat>, blocks: seq<StoredBlock>, i: nat, j: nat)
    requires Cutting(all, cuts, blocks) && i < j <= |blocks|
    ensures cuts[i] < cuts[j] <= |all|
    decreases j
  {
    assert blocks[j - 1] == blocks[j - 1];
    assert cuts[j - 1 + 1] == cuts[j];
    if i < j - 1 {
      CutsGrow(all, cuts, blocks, i, j - 1);
    }
  }

  /** The index entries of finished cuts do not depend on pairs added later. */
  lemma IndexMore(all: seq<Pair>, cuts: seq<nat>, blocks: seq<StoredBlock>, index: seq<Pair>, p: Pair)
    requires IndexFor(all, cuts, blocks, index) && IsInternal(p.key)
    requires IndexReady(all, cuts, index, p.key)
    ensures IndexFor(all + [p], cuts, blocks, index)
  {
    hide Separates, Follows, HandleBytes;
    forall i | 0 <= i < |index|
      ensures SepAt(all + [p], cuts[i + 1], index[i].key)
    {
      assert ReadyAt(all, cuts[i + 1], index[i].key, p.key);
      assert SepAt(all, cuts[i + 1], index[i].key);
    }
  }

  /** One more index entry, for the last block written. */
  lemma IndexEntry(all: seq<Pair>, cuts: seq<nat>, blocks: seq<StoredBlock>, index: seq<Pair>, sep: Bytes)
    requires IndexFor(all, cuts, blocks, index) && |index| + 1 == |blocks| && cuts[|blocks|] == |all| > 0
    requires IsInternal(all[|all| - 1].key) && Follows(all[|all| - 1].key, sep)
    ensures IndexFor(all, cuts, blocks, index + [Pair(sep, HandleBytes(blocks[|blocks| - 1].handle))])
  {
    hide Separates, Follows, HandleBytes;
  }

  lemma IndexBlock(all: seq<Pair>, cuts: seq<nat>, blocks: seq<StoredBlock>, index: seq<Pair>, c: nat, w: StoredBlock)
    requires IndexFor(all, cuts, blocks, index)
    ensures IndexFor(all, cuts + [c], blocks + [w], index)
  {
    hide SepAt, HandleBytes;
    forall i | 0 <= i < |index|
      ensures (blocks + [w])[i] == blocks[i] && (cuts + [c])[i + 1] == cuts[i + 1]
    {
    }
  }

  lemma CoveredMore(added: seq<Added>, all: seq<Pair>, cuts: seq<nat>, blocks: seq<StoredBlock>, offset: nat, p: Pair)
    requires Covered(added, all, cuts, blocks) && CoveredBlock(added, all, cuts[|blocks|], |all|, offset)
    ensures Covered(added + [Added(offset, p.key)], all + [p], cuts, blocks)
    ensures CoveredBlock(added + [Added(offset, p.key)], all + [p], cuts[|blocks|], |all| + 1, offset)
  {
  }

  lemma CoveredWrite(added: seq<Added>, all: seq<Pair>, cuts: seq<nat>, blocks: seq<StoredBlock>, w: StoredBlock, next: nat)
    requires Covered(added, all, cuts, blocks) && CoveredBlock(added, all, cuts[|blocks|], |all|, w.handle.offset)
    ensures Covered(added, all, cuts + [|all|], blocks + [w]) && CoveredBlock(added, all, |all|, |all|, next)
  {
    hide CoveredBlock;
    var cuts', blocks' := cuts + [|all|], blocks + [w];
    forall i {:trigger blocks'[i]} | 0 <= i < |blocks'|
      ensures CoveredBlock(added, all, cuts'[i], cuts'[i + 1], blocks'[i].handle.offset)
    {
      if i < |blocks| {
        assert blocks'[i] == blocks[i] && cuts'[i] == cuts[i] && cuts'[i + 1] == cuts[i + 1];
      }
    }
    CoveredNone(added, all, next);
  }

  lemma CoveredNone(added: seq<Added>, all: seq<Pair>, next: nat)
    requires |added| == |all|
    ensures CoveredBlock(added, all, |all|, |all|, next)
  {
  }

  /** Every index key at the end of the pairs separates them from the next key. */
  ghost predicate IndexReady(all: seq<Pair>, cuts: seq<nat>, index: seq<Pair>, key: Bytes)
    requires |cuts| > |index| && IsInternal(key)
  {
    forall i {:trigger index[i]} :: 0 <= i < |index| ==> ReadyAt(all, cuts[i + 1], index[i].key, key)
  }

  ghost predicate ReadyAt(all: seq<Pair>, c: nat, sep: Bytes, key: Bytes)
    requires IsInternal(key)
  {
    c == |all| ==> all != [] && IsInternal(all[|all| - 1].key) && Separates(all[|all| - 1].key, sep, key)
  }

  lemma NotPending(all: seq<Pair>, cuts: seq<nat>, blocks: seq<StoredBlock>, index: seq<Pair>, key: Bytes)
    requires Cutting(all, cuts, blocks) && |index| == |blocks| && (blocks == [] || cuts[|blocks|] < |all|) && IsInternal(key)
    ensures IndexReady(all, cuts, index, key)
  {
    hide Between, Separates;
    forall i {:trigger index[i]} | 0 <= i < |index|
      ensures cuts[i + 1] < |all|
    {
      if i + 1 < |blocks| {
        CutsGrow(all, cuts, blocks, i + 1, |blocks|);
      }
    }
  }

  lemma PendingReady(all: seq<Pair>, cuts: seq<nat>, blocks: seq<StoredBlock>, index: seq<Pair>, sep: Bytes, key: Bytes)
    requires Cutting(all, cuts, blocks) && |index| + 1 == |blocks| && cuts[|blocks|] == |all| > 0
    requires IsInternal(all[|all| - 1].key) && IsInternal(key) && Separates(all[|all| - 1].key, sep, key)
    ensures IndexReady(all, cuts, index + [Pair(sep, HandleBytes(blocks[|blocks| - 1].handle))], key)
  {
    hide Between, Separates, HandleBytes;
    forall i {:trigger index[i]} | 0 <= i < |index|
      ensures cuts[i + 1] < |all|
    {
      CutsGrow(all, cuts, blocks, i + 1, |blocks|);
    }
  }

  lemma LastCut(all: seq<Pair>, cuts: seq<nat>, blocks: seq<StoredBlock>)
    requires Cutting(all, cuts, blocks) && SortedKeys(all) && blocks != [] && cuts[|blocks|] == |all|
    ensures |all| > 0 && IsInternal(all[|all| - 1].key) && cuts[|blocks| - 1] < |all|
  {
    CutsGrow(all, cuts, blocks, 0, |blocks|);
    CutsGrow(all, cuts, blocks, |blocks| - 1, |blocks|);
  }

  lemma SeparatesFollows(last: Bytes, sep: Bytes, next: Bytes)
    requires IsInternal(last) && IsInternal(next) && Separates(last, sep, next)
    ensures Follows(last, sep)
  {
  }

  /** What is kept when a pair is added. */
  lemma AddKeeps(all: seq<Pair>, cuts: seq<nat>, blocks: seq<StoredBlock>, index: seq<Pair>, p: Pair)
    requires SortedKeys(all) && Cutting(all, cuts, blocks) && IndexFor(all, cuts, blocks, index) && |cuts| == |blocks| + 1
    requires |index| == |blocks| && IsInternal(p.key) && IndexReady(all, cuts, index, p.key)
    requires cuts[|blocks|] <= |all| && (all != [] ==> InternalLess(all[|all| - 1].key, p.key))
    ensures SortedKeys(all + [p]) && Cutting(all + [p], cuts, blocks) && IndexFor(all + [p], cuts, blocks, index)
    ensures (all + [p])[cuts[|blocks|]..] == all[cuts[|blocks|]..] + [p]
  {
    hide SortedKeys, Cutting, IndexFor, InternalLess, Separates;
    SortedMore(all, p);
    CuttingMore(all, cuts, blocks, p);
    IndexMore(all, cuts, blocks, index, p);
  }

  // ------------------------------------------------------------------ what a table weighs

  /** More than the data blocks with some pairs and their trailers take. */
  function DataWeight(ps: seq<Pair>): nat {
    if ps == [] then 8 else DataWeight(ps[..|ps| - 1]) + |ps[|ps| - 1].key| + |ps[|ps| - 1].value| + 32
  }

  /** More than the index entries for some pairs take. */
  function IndexWeight(ps: seq<Pair>): nat {
    if ps == [] then 0 else IndexWeight(ps[..|ps| - 1]) + |ps[|ps| - 1].key| + 39
  }

  function FilterWeight(options: Options, n: nat): nat {
    if options.filter.None? then 0 else KeysCost(options.filter.value.bitsPerKey, n) + |FilterKey(options.filter.value)|
  }

  function NameSize(options: Options): nat {
    if options.filter.None? then 0 else |FilterKey(options.filter.value)|
  }

  lemma NothingWeighs()
    ensures Weight([]) == 8
  {
  }

  /** More than a table with some pairs takes. */
  function TableWeight(options: Options, ps: seq<Pair>): nat {
    2 * DataWeight(ps) + IndexWeight(ps) + FilterWeight(options, |ps|) + 100
  }

  lemma WeightMore(options: Options, ps: seq<Pair>, p: Pair)
    ensures DataWeight(ps + [p]) == DataWeight(ps) + |p.key| + |p.value| + 32
    ensures IndexWeight(ps + [p]) == IndexWeight(ps) + |p.key| + 39
    ensures TableWeight(options, ps) + |p.key| + |p.value| <= TableWeight(options, ps + [p])
  {
    assert (ps + [p])[..|ps|] == ps;
    if options.filter.Some? {
      CostAdds(options.filter.value.bitsPerKey, |ps|, 1);
    }
  }

  lemma PairWeighs(ps: seq<Pair>, p: Pair)
    ensures Weight(ps + [p]) == Weight(ps) + |p.key| + |p.value| + 19
  {
    assert (ps + [p])[..|ps|] == ps;
  }

  /** The file and the open data block take no more than the pairs weigh, and the index
      entries no more than the pairs they stand for. */
  ghost predicate Light(offset: nat, data: seq<Pair>, index: seq<Pair>, all: seq<Pair>, cuts: seq<nat>) {
    offset + Weight(data) + 13 * |data| <= DataWeight(all) && IndexLight(index, all, cuts)
  }

  ghost predicate IndexLight(index: seq<Pair>, all: seq<Pair>, cuts: seq<nat>) {
    && |index| < |cuts| && cuts[|index|] <= |all|
    && Weight(index) + IndexWeight(all[cuts[|index|]..]) <= 8 + IndexWeight(all)
  }

  lemma LightAdd(offset: nat, data: seq<Pair>, index: seq<Pair>, all: seq<Pair>, cuts: seq<nat>, p: Pair)
    requires Light(offset, data, index, all, cuts)
    ensures Light(offset, data + [p], index, all + [p], cuts)
  {
    hide Weight, DataWeight, IndexWeight;
    PairWeighs(data, p);
    WeightMore(Options(0, 1, None), all, p);
    var c := cuts[|index|];
    assert (all + [p])[c..] == all[c..] + [p];
    WeightMore(Options(0, 1, None), all[c..], p);
  }

  /** The data block fits in front of what a table weighs. */
  lemma LightBound(options: Options, offset: nat, data: seq<Pair>, index: seq<Pair>, all: seq<Pair>, cuts: seq<nat>)
    requires Light(offset, data, index, all, cuts)
    ensures offset + Weight(data) + 100 <= TableWeight(options, all)
    ensures Weight(index) <= 8 + IndexWeight(all) && offset <= DataWeight(all)
  {
    hide Weight, DataWeight, IndexWeight, FilterWeight;
  }

  lemma LightParts(offset: nat, data: seq<Pair>, index: seq<Pair>, all: seq<Pair>, cuts: seq<nat>)
    requires Light(offset, data, index, all, cuts)
    ensures IndexLight(index, all, cuts)
  {
  }

  lemma IndexBound(index: seq<Pair>, all: seq<Pair>, cuts: seq<nat>)
    requires IndexLight(index, all, cuts)
    ensures Weight(index) <= 8 + IndexWeight(all)
  {
  }

  lemma LightFlush(offset: nat, size: nat, data: seq<Pair>, index: seq<Pair>, all: seq<Pair>, cuts: seq<nat>)
    requires Light(offset, data, index, all, cuts) && data != [] && size <= Weight(data)
    ensures Light(offset + size + TRAILER_SIZE, [], index, all, cuts + [|all|])
    ensures offset + size <= DataWeight(all)
  {
    hide DataWeight, IndexWeight;
  }

  /** The index entry of the last block, under a key no longer than the last of the block. */
  lemma LightIndex(index: seq<Pair>, all: seq<Pair>, cuts: seq<nat>, p: Pair)
    requires IndexLight(index, all, cuts) && |index| + 2 == |cuts| && cuts[|index|] < cuts[|index| + 1] == |all|
    requires |p.key| <= |all[|all| - 1].key| && |p.value| <= 20
    ensures IndexLight(index + [p], all, cuts)
  {
    hide Weight;
    PairWeighs(index, p);
    var rest := all[cuts[|index|]..];
    assert rest[|rest| - 1] == all[|all| - 1];
    assert all[|all|..] == [];
  }

  // ------------------------------------------------------------------ the builder

  class TableBuilder {
    const step: CrcStep
    const options: Options
    var file: Bytes
    var offset: nat
    var status: Status
    const dataBlock: BlockBuilder
    const indexBlock: BlockBuilder
    const filterBlock: FilterBlockBuilder?
    var lastKey: Bytes
    var numEntries: nat
    var closed: bool
    var pendingIndexEntry: bool   // only while the data block is empty
    var pendingHandle: Handle
    ghost var all: seq<Pair>      // all pairs added
    ghost var cuts: seq<nat>      // where they are cut into blocks
    ghost var blocks: seq<StoredBlock>

    ghost predicate Parts()
      reads dataBlock, indexBlock, filterBlock
    {
      && dataBlock != indexBlock && dataBlock.Ok() && indexBlock.Ok() && options.restartInterval >= 1
      && (filterBlock == null <==> options.filter.None?)
      && (filterBlock != null ==> filterBlock.Ok() && filterBlock.policy == PolicyOf(options.filter.value))
    }

    /** What is in the file. */
    ghost predicate InFile()
      reads this`file, this`offset, this`all, this`cuts, this`blocks
    {
      && offset == |file| && |cuts| == |blocks| + 1 && cuts[|blocks|] <= |all|
      && SortedKeys(all) && Cutting(all, cuts, blocks) && AllStored(step, file, blocks)
    }

    /** What the index is told and still has to be told. */
    ghost predicate Indexed()
      reads this`all, this`cuts, this`blocks, this`pendingIndexEntry, this`pendingHandle, indexBlock
    {
      && IndexFor(all, cuts, blocks, indexBlock.shape.pairs)
      && |blocks| == |indexBlock.shape.pairs| + (if pendingIndexEntry then 1 else 0)
      && (pendingIndexEntry <==> blocks != [] && cuts[|blocks|] == |all|)
      && (pendingIndexEntry ==> pendingHandle == blocks[|blocks| - 1].handle && pendingHandle.offset < LONG && pendingHandle.size < LONG)
    }

    ghost predicate Told()
      reads this`all, this`cuts, this`blocks, this`offset, filterBlock
    {
      filterBlock != null ==>
        && filterBlock.block == Some(offset) && Covered(filterBlock.added, all, cuts, blocks)
        && CoveredBlock(filterBlock.added, all, cuts[|blocks|], |all|, offset)
    }

    ghost predicate Measured()
      reads this`offset, this`all, this`cuts, dataBlock, indexBlock, filterBlock
    {
      && Light(offset, dataBlock.shape.pairs, indexBlock.shape.pairs, all, cuts)
      && (filterBlock != null ==> |filterBlock.added| == |all|)
    }

    ghost predicate Ok()
      reads this, dataBlock, indexBlock, filterBlock
    {
      && Parts() && InFile() && Indexed() && Told() && Measured() && status.Fine? && !closed
      && dataBlock.shape.pairs == all[cuts[|blocks|]..]
      && lastKey == (if all == [] then [] else all[|all| - 1].key) && |lastKey| < WORD && numEntries == |all|
    }

    constructor (step: CrcStep, options: Options)
      requires options.restartInterval >= 1
      ensures Ok() && all == [] && this.step == step && this.options == options && status.Fine?
      ensures fresh(dataBlock) && fresh(indexBlock) && (filterBlock != null ==> fresh(filterBlock))
    {
      hide BlockBuilder.Ok, FilterBlockBuilder.Ok;
      this.step, this.options := step, options;
      var data := new BlockBuilder(options.restartInterval);
      var index := new BlockBuilder(1);
      dataBlock, indexBlock := data, index;
      var filter: FilterBlockBuilder? := null;
      if options.filter.Some? {
        var builder := new FilterBlockBuilder(PolicyOf(options.filter.value));
        builder.StartBlock(0);
        filter := builder;
      }
      filterBlock := filter;
      file, offset, status, lastKey, numEntries, closed := [], 0, Fine, [], 0, false;
      pendingIndexEntry, pendingHandle := false, Handle(0, 0);
      all, cuts, blocks := [], [0], [];
    }

    /** Appends a block and its trailer; the handle tells where. */
    method WriteRawBlock(data: Bytes) returns (handle: Handle)
      requires status.Fine? && offset == |file|
      modifies this`file, this`offset, this`status
      ensures handle == Handle(old(offset), |data|) && offset == |file|
      ensures status == if |data| >= WORD then TooLarge(|data|) else if old(offset) + |data| + TRAILER_SIZE >= LONG then TooLarge(old(offset)) else Fine
      ensures file == if status.Fine? then old(file) + data + Trailer(step, data) else old(file)
      ensures status.Fine? ==> offset == old(offset) + |data| + TRAILER_SIZE
    {
      handle := Handle(offset, |data|);
      if |data| >= WORD {
        status := TooLarge(|data|);
        return;
      }
      if offset + |data| + TRAILER_SIZE >= LONG {
        status := TooLarge(offset);
        return;
      }
      file := file + data;
      var crc := Extend(step, Crc(step, data), [NO_COMPRESSION]);
      ExtendConcat(step, 0, data, [NO_COMPRESSION]);
      hide Extend, Mask;
      file := file + ([NO_COMPRESSION] + EncodeFixed32(Mask(crc)));
      offset := offset + |data| + TRAILER_SIZE;
    }

    /** Finishes a block, writes it and empties it for the next one. */
    method WriteBlock(block: BlockBuilder) returns (handle: Handle, ghost w: StoredBlock)
      requires status.Fine? && offset == |file| && block.Ok()
      modifies this`file, this`offset, this`status, block
      ensures offset == |file| && (status.Fine? || old(offset) + Weight(old(block.shape.pairs)) + TRAILER_SIZE >= WORD)
      ensures status.Fine? ==> Wrote(step, old(file), file, w) && w.handle == handle && w.shape == old(block.shape)
      ensures status.Fine? ==> block.Ok() && block.shape.pairs == []
      ensures status.Fine? ==> handle.size <= Weight(old(block.shape.pairs)) && offset == old(offset) + handle.size + TRAILER_SIZE
    {
      hide BlockBuilder.Ok, BlockOf, Trailer, Weight;
      block.SizeBound();
      if block.CurrentSizeEstimate() >= WORD {
        handle, w := Handle(0, 0), StoredBlock(Handle(0, 0), [], EMPTY_SHAPE);
        status := TooLarge(block.CurrentSizeEstimate());
        return;
      }
      ghost var shape := block.shape;
      var data := block.Finish();
      ghost var before := file;
      handle := WriteRawBlock(data);
      w := StoredBlock(handle, data, shape);
      BlockAtEnd(step, before, data);
      if status.Fine? {
        WroteIt(step, before, file, w);
      }
      block.Reset();
    }

    /** Adds a pair after all others; a full data block is written. */
    method Add(key: Bytes, value: Bytes)
      requires IsInternal(key)
      requires status.Fine? ==> Ok() && (all != [] ==> InternalLess(all[|all| - 1].key, key))
      modifies this, dataBlock, indexBlock, filterBlock
      ensures status.Fine? ==> Ok() && all == old(all) + [Pair(key, value)]
      ensures if old(status).TooLarge? then status == old(status)
              else status.Fine? || TableWeight(options, old(all) + [Pair(key, value)]) >= WORD
    {
      hide Ok, InternalLess, TableWeight, DataWeight, IndexWeight;
      WeightMore(options, all, Pair(key, value));
      if !status.Fine? {
        return;
      }
      if |key| >= WORD || |value| >= WORD {
        status := TooLarge(if |key| >= WORD then |key| else |value|);
        return;
      }
      AddPair(key, value);
      if dataBlock.CurrentSizeEstimate() >= options.blockSize {
        Flush();
      }
    }

    method AddPair(key: Bytes, value: Bytes)
      requires IsInternal(key) && |key| < WORD && |value| < WORD
      requires Ok() && (all != [] ==> InternalLess(all[|all| - 1].key, key))
      modifies this`pendingIndexEntry, this`lastKey, this`numEntries, this`all, dataBlock, indexBlock, filterBlock
      ensures Ok() && all == old(all) + [Pair(key, value)]
    {
      hide BlockBuilder.Ok, FilterBlockBuilder.Ok, SortedKeys, IndexFor, Covered, CoveredBlock, Cutting, AllStored;
      hide IndexReady, Separates, Follows, InternalLess, User, IndexLight, Weight, DataWeight;
      PrepareIndex(key);
      PutPair(key, value);
    }

    method PutPair(key: Bytes, value: Bytes)
      requires IsInternal(key) && |key| < WORD && |value| < WORD && status.Fine? && !closed && !pendingIndexEntry
      requires Parts() && InFile() && Told() && Measured() && (all != [] ==> InternalLess(all[|all| - 1].key, key))
      requires |indexBlock.shape.pairs| == |blocks| && IndexFor(all, cuts, blocks, indexBlock.shape.pairs)
      requires IndexReady(all, cuts, indexBlock.shape.pairs, key)
      requires dataBlock.shape.pairs == all[cuts[|blocks|]..] && numEntries == |all|
      modifies this`lastKey, this`numEntries, this`all, dataBlock, filterBlock
      ensures Ok() && all == old(all) + [Pair(key, value)]
    {
      hide BlockBuilder.Ok, FilterBlockBuilder.Ok, SortedKeys, IndexFor, Covered, CoveredBlock, Cutting, AllStored;
      hide IndexReady, Separates, Follows, InternalLess, User, Light;
      LightAdd(offset, dataBlock.shape.pairs, indexBlock.shape.pairs, all, cuts, Pair(key, value));
      TellFilter(Pair(key, value));
      lastKey := key;
      numEntries := numEntries + 1;
      dataBlock.Add(key, value);
      AddKeeps(all, cuts, blocks, indexBlock.shape.pairs, Pair(key, value));
      all := all + [Pair(key, value)];
    }

    /** Adds the index entry that was left for the first key of the next block. */
    method PrepareIndex(key: Bytes)
      requires IsInternal(key) && indexBlock.Ok() && InFile() && Indexed() && lastKey == (if all == [] then [] else all[|all| - 1].key)
      requires |lastKey| < WORD && IndexLight(indexBlock.shape.pairs, all, cuts)
      modifies this`pendingIndexEntry, this`lastKey, indexBlock
      ensures indexBlock.Ok() && !pendingIndexEntry && |indexBlock.shape.pairs| == |blocks|
      ensures IndexLight(indexBlock.shape.pairs, all, cuts)
      ensures IndexFor(all, cuts, blocks, indexBlock.shape.pairs) && IndexReady(all, cuts, indexBlock.shape.pairs, key)
    {
      hide BlockBuilder.Ok, SortedPairs, IndexFor, Cutting, AllStored, IndexReady, Separates, Follows, User, IndexLight, HandleBytes;
      if !pendingIndexEntry {
        NotPending(all, cuts, blocks, indexBlock.shape.pairs, key);
        return;
      }
      LastCut(all, cuts, blocks);
      lastKey := FindInternalSeparator(lastKey, key);
      SeparatesFollows(all[|all| - 1].key, lastKey, key);
      IndexEntry(all, cuts, blocks, indexBlock.shape.pairs, lastKey);
      PendingReady(all, cuts, blocks, indexBlock.shape.pairs, lastKey, key);
      HandleSize(pendingHandle);
      LightIndex(indexBlock.shape.pairs, all, cuts, Pair(lastKey, HandleBytes(pendingHandle)));
      AddIndexEntry();
    }

    method AddIndexEntry()
      requires indexBlock.Ok() && |lastKey| < WORD && pendingHandle.offset < LONG && pendingHandle.size < LONG
      modifies this`pendingIndexEntry, indexBlock
      ensures indexBlock.Ok() && !pendingIndexEntry
      ensures indexBlock.shape.pairs == old(indexBlock.shape.pairs) + [Pair(lastKey, HandleBytes(pendingHandle))]
    {
      hide BlockBuilder.Ok, HandleBytes;
      HandleSize(pendingHandle);
      indexBlock.Add(lastKey, HandleBytes(pendingHandle));
      pendingIndexEntry := false;
    }

    method TellFilter(p: Pair)
      requires |cuts| == |blocks| + 1 && Told() && (filterBlock != null ==> filterBlock.Ok())
      modifies filterBlock
      ensures filterBlock != null ==>
                && filterBlock.Ok() && filterBlock.block == Some(offset)
                && Covered(filterBlock.added, all + [p], cuts, blocks)
                && CoveredBlock(filterBlock.added, all + [p], cuts[|blocks|], |all| + 1, offset)
                && |filterBlock.added| == old(|filterBlock.added|) + 1
    {
      if filterBlock != null {
        CoveredMore(filterBlock.added, all, cuts, blocks, offset, p);
        hide Covered, CoveredBlock, FilterBlockBuilder.Ok;
        filterBlock.AddKey(p.key);
      }
    }

    /** Writes the data block, if there is anything in it. */
    method Flush()
      requires status.Fine? ==> Ok()
      modifies this`file, this`offset, this`status, this`pendingIndexEntry, this`pendingHandle, this`cuts, this`blocks
      modifies dataBlock, filterBlock
      ensures status.Fine? ==> Ok() && cuts[|blocks|] == |all|
      ensures if old(status).TooLarge? then status == old(status) else status.Fine? || TableWeight(options, all) >= WORD
    {
      hide BlockBuilder.Ok, FilterBlockBuilder.Ok, SortedKeys, IndexFor, Covered, CoveredBlock, Cutting, AllStored, Light, TableWeight;
      if !status.Fine? {
        return;
      }
      dataBlock.EmptyIff();
      if dataBlock.Empty() {
        return;
      }
      FlushBlock();
    }

    method FlushBlock()
      requires Ok() && dataBlock.shape.pairs != []
      modifies this`file, this`offset, this`status, this`pendingIndexEntry, this`pendingHandle, this`cuts, this`blocks
      modifies dataBlock, filterBlock
      ensures status.Fine? ==> Ok() && cuts[|blocks|] == |all|
      ensures status.Fine? || TableWeight(options, all) >= WORD
    {
      hide BlockBuilder.Ok, FilterBlockBuilder.Ok, InFile, Indexed, Covered, CoveredBlock, Light, TableWeight;
      CutsFit();
      ghost var before, known, start := cuts, blocks, offset;
      ghost var w := WriteData();
      if status.Fine? {
        StartNext(before, known, w);
      }
    }

    lemma CutsFit()
      requires InFile()
      ensures |cuts| == |blocks| + 1
    {
    }

    /** Writes the data block; its index entry has to wait for the next key. */
    method WriteData() returns (ghost w: StoredBlock)
      requires Parts() && InFile() && Indexed() && status.Fine? && dataBlock.shape.pairs != []
      requires Light(offset, dataBlock.shape.pairs, indexBlock.shape.pairs, all, cuts) && |cuts| == |blocks| + 1
      requires dataBlock.shape.pairs == all[cuts[|blocks|]..]
      modifies this`file, this`offset, this`status, this`pendingIndexEntry, this`pendingHandle, this`cuts, this`blocks, dataBlock
      ensures status.Fine? || TableWeight(options, all) >= WORD
      ensures status.Fine? ==> dataBlock.Ok() && InFile() && Indexed() && dataBlock.shape.pairs == []
      ensures status.Fine? ==> Light(offset, [], indexBlock.shape.pairs, all, cuts)
      ensures status.Fine? ==> cuts == old(cuts) + [|all|] && blocks == old(blocks) + [w] && w.handle.offset == old(offset) <= offset
    {
      hide BlockBuilder.Ok, FilterBlockBuilder.Ok, SortedKeys, IndexFor, Cutting, AllStored, Wrote, Light,
           TableWeight, Weight, DataWeight;
      ghost var before, start, data := file, offset, dataBlock.shape.pairs;
      LightBound(options, offset, data, indexBlock.shape.pairs, all, cuts);
      pendingHandle, w := WriteBlock(dataBlock);
      if !status.Fine? {
        return;
      }
      LightFlush(start, pendingHandle.size, data, indexBlock.shape.pairs, all, cuts);
      pendingIndexEntry := true;
      FlushKeeps(step, before, file, all, cuts, blocks, indexBlock.shape.pairs, w);
      cuts, blocks := cuts + [|all|], blocks + [w];
    }

    /** Tells the filter that the next block starts. */
    method StartNext(ghost cuts0: seq<nat>, ghost blocks0: seq<StoredBlock>, ghost w: StoredBlock)
      requires |cuts0| == |blocks0| + 1
      requires filterBlock != null ==>
                 && filterBlock.Ok() && filterBlock.block == Some(w.handle.offset) && w.handle.offset <= offset
                 && Covered(filterBlock.added, all, cuts0, blocks0)
                 && CoveredBlock(filterBlock.added, all, cuts0[|blocks0|], |all|, w.handle.offset)
      modifies filterBlock
      ensures filterBlock != null ==>
                && filterBlock.Ok() && filterBlock.block == Some(offset)
                && Covered(filterBlock.added, all, cuts0 + [|all|], blocks0 + [w])
                && CoveredBlock(filterBlock.added, all, |all|, |all|, offset)
                && filterBlock.added == old(filterBlock.added)
    {
      if filterBlock != null {
        CoveredWrite(filterBlock.added, all, cuts0, blocks0, w, offset);
        hide Covered, CoveredBlock, AddedOk, Join, Starts;
        filterBlock.StartBlock(offset);
      }
    }

    /** Writes what remains, the filter, the metaindex, the index and the footer. */
    method Finish() returns (ghost l: Layout)
      requires status.Fine? ==> Ok()
      modifies this, dataBlock, indexBlock, filterBlock
      ensures closed && (status.Fine? ==> TableFile(step, options, file, l) && l.all == old(all))
      ensures if old(status).TooLarge? then status == old(status) else status.Fine? || TableWeight(options, old(all)) >= WORD
    {
      hide BlockBuilder.Ok, FilterBlockBuilder.Ok, SortedKeys, IndexFor, Covered, CoveredBlock, Cutting, AllStored, TableFile, Light,
           TableWeight;
      Flush();
      closed := true;
      l := Layout(all, cuts, blocks, NOT_WRITTEN, NOT_WRITTEN, None);
      if !status.Fine? {
        return;
      }
      l := FinishFile();
    }

    /** What Finish does after the last data block. */
    method FinishFile() returns (ghost l: Layout)
      requires Parts() && InFile() && Indexed() && Told() && Measured() && status.Fine? && cuts[|blocks|] == |all|
      requires lastKey == (if all == [] then [] else all[|all| - 1].key) && |lastKey| < WORD
      modifies this`file, this`offset, this`status, this`lastKey, this`pendingIndexEntry, indexBlock, filterBlock
      ensures status.Fine? ==> TableFile(step, options, file, l) && l.all == all
      ensures status.Fine? || TableWeight(options, all) >= WORD
    {
      hide BlockBuilder.Ok, FilterBlockBuilder.Ok, SortedKeys, IndexFor, Covered, CoveredBlock, Cutting, AllStored, Wrote, Light;
      hide Weight, DataWeight, IndexWeight, KeysCost, IndexLight;
      hide FilterWritten, TableFile, Stored, MetaPairs;
      l := Layout(all, cuts, blocks, NOT_WRITTEN, NOT_WRITTEN, None);
      ghost var f0 := file;
      LightBound(options, offset, dataBlock.shape.pairs, indexBlock.shape.pairs, all, cuts);
      LightParts(offset, dataBlock.shape.pairs, indexBlock.shape.pairs, all, cuts);
      var filterHandle, part := WriteFilter();
      if !status.Fine? {
        return;
      }
      ghost var f1 := file;
      var metaHandle, meta := WriteMetaIndex(filterHandle);
      if !status.Fine? {
        return;
      }
      ghost var f2 := file;
      FinishIndex();
      IndexBound(indexBlock.shape.pairs, all, cuts);
      var indexHandle, index := WriteBlock(indexBlock);
      if !status.Fine? {
        return;
      }
      ghost var f3 := file;
      l := Layout(all, cuts, blocks, index, meta, part);
      StoredParts(step, f2, f3, index);
      StoredParts(step, f1, f2, meta);
      HandleSize(metaHandle);
      HandleSize(indexHandle);
      file := file + FooterBytes(metaHandle, indexHandle);
      offset := offset + FOOTER_SIZE;
      FinishKeeps(step, options, f0, f1, f2, f3, file, l);
    }

    /** More than the filters take, but for the array of where they start. */
    ghost function FilterCosts(): nat
      reads filterBlock
    {
      if filterBlock == null then 0 else KeysCost(filterBlock.policy.bitsPerKey, |filterBlock.added|)
    }

    method WriteFilter() returns (handle: Handle, ghost part: Option<FilterPart>)
      requires Parts() && Told() && status.Fine? && offset == |file| && |cuts| == |blocks| + 1
      modifies this`file, this`offset, this`status, filterBlock
      ensures offset == |file| && (status.Fine? || 2 * old(offset) + old(FilterCosts()) + 14 >= WORD)
      ensures status.Fine? ==> offset <= 2 * old(offset) + old(FilterCosts()) + 14
      ensures status.Fine? ==> FilterWritten(step, options, old(file), file, all, cuts, blocks, part)
      ensures status.Fine? && part.Some? ==> part.value.handle == handle && handle.offset < LONG && handle.size < LONG
      ensures status.Fine? ==> (part.Some? <==> options.filter.Some?) && (part.None? ==> handle == Handle(0, 0))
    {
      handle, part := Handle(0, 0), None;
      if filterBlock == null {
        return;
      }
      hide Covered, CoveredBlock, AddedOk, Join, Starts, BlockBuilder.Ok, FilterBlockBuilder.Ok, Fixed32s, Trailer, BlockAt,
           FilterBlock, FilterWritten, KeysCost;
      filterBlock.CountFilters();
      var contents := filterBlock.Finish();
      ghost var before := file;
      handle := WriteRawBlock(contents);
      part := Some(FilterPart(handle, contents, filterBlock.filters, filterBlock.added));
      if status.Fine? {
        FilterAtEnd(step, options, before, all, cuts, blocks, part.value);
      }
    }

    method WriteMetaIndex(filterHandle: Handle) returns (handle: Handle, ghost w: StoredBlock)
      requires options.restartInterval >= 1 && status.Fine? && offset == |file|
      requires options.filter.Some? ==> filterHandle.offset < LONG && filterHandle.size < LONG
      modifies this`file, this`offset, this`status
      ensures offset == |file| && (status.Fine? || old(offset) + NameSize(options) + 52 >= WORD)
      ensures status.Fine? ==> offset <= old(offset) + NameSize(options) + 52
      ensures status.Fine? ==> Wrote(step, old(file), file, w) && w.handle == handle && w.shape.pairs == MetaPairs(options, filterHandle)
    {
      hide BlockBuilder.Ok, Wrote, HandleBytes, Weight;
      NothingWeighs();
      var metaIndexBlock := new BlockBuilder(options.restartInterval);
      if options.filter.Some? {
        HandleSize(filterHandle);
        if |FilterKey(options.filter.value)| >= WORD {
          handle, w := Handle(0, 0), NOT_WRITTEN;
          status := TooLarge(|FilterKey(options.filter.value)|);
          return;
        }
        PairWeighs([], Pair(FilterKey(options.filter.value), HandleBytes(filterHandle)));
        metaIndexBlock.Add(FilterKey(options.filter.value), HandleBytes(filterHandle));
      }
      handle, w := WriteBlock(metaIndexBlock);
    }

    /** The index entry of the last block, under a short successor of its last key. */
    method FinishIndex()
      requires indexBlock.Ok() && SortedKeys(all) && Cutting(all, cuts, blocks) && Indexed()
      requires |lastKey| < WORD && cuts[|blocks|] == |all| && (all != [] ==> lastKey == all[|all| - 1].key)
      requires IndexLight(indexBlock.shape.pairs, all, cuts) && |cuts| == |blocks| + 1
      ensures IndexLight(indexBlock.shape.pairs, all, cuts)
      modifies this`pendingIndexEntry, this`lastKey, indexBlock
      ensures indexBlock.Ok() && |indexBlock.shape.pairs| == |blocks| && IndexFor(all, cuts, blocks, indexBlock.shape.pairs)
    {
      hide BlockBuilder.Ok, SortedPairs, IndexFor, Cutting, AllStored, Follows, User, IndexLight, HandleBytes;
      if !pendingIndexEntry {
        return;
      }
      LastCut(all, cuts, blocks);
      lastKey := FindInternalSuccessor(lastKey);
      HandleSize(pendingHandle);
      LightIndex(indexBlock.shape.pairs, all, cuts, Pair(lastKey, HandleBytes(pendingHandle)));
      SuccessorFollows(all[|all| - 1].key, lastKey);
      IndexEntry(all, cuts, blocks, indexBlock.shape.pairs, lastKey);
      AddIndexEntry();
    }
  }

  lemma SuccessorFollows(last: Bytes, succ: Bytes)
    requires IsInternal(last) && IsInternal(succ) && (succ == last || BytesLess(User(last), User(succ)))
    ensures Follows(last, succ)
  {
  }

  const NOT_WRITTEN := StoredBlock(Handle(0, 0), [], EMPTY_SHAPE)

  /** The filter, if there is one, is written and knows all pairs. */
  ghost predicate FilterWritten(step: CrcStep, options: Options, before: Bytes, after: Bytes,
                                all: seq<Pair>, cuts: seq<nat>, blocks: seq<StoredBlock>, part: Option<FilterPart>) {
    && before <= after && FilterStored(step, options, after, all, cuts, blocks, part)
  }

  /** The filter goes behind what was in the file. */
  lemma FilterAtEnd(step: CrcStep, options: Options, before: Bytes, all: seq<Pair>, cuts: seq<nat>, blocks: seq<StoredBlock>, f: FilterPart)
    requires options.filter.Some? && f.handle == Handle(|before|, |f.contents|)
    requires |f.contents| < WORD && |before| < LONG
    requires f.contents == Join(f.filters) + Fixed32s(Starts(f.filters) + [|Join(f.filters)|]) + [FILTER_BASE_LG]
    requires AddedOk(PolicyOf(options.filter.value), f.added, f.filters, []) && Covered(f.added, all, cuts, blocks)
    ensures FilterWritten(step, options, before, before + f.contents + Trailer(step, f.contents), all, cuts, blocks, Some(f))
  {
    hide Covered, AddedOk, Join, Starts, Fixed32s, Trailer, BlockAt;
    BlockAtEnd(step, before, f.contents);
  }

  lemma StoredParts(step: CrcStep, before: Bytes, after: Bytes, w: StoredBlock)
    requires Wrote(step, before, after, w)
    ensures before <= after && Stored(step, after, w) && w.handle.offset < LONG && w.handle.size < LONG
  {
  }

  /** What was stored stays so while the file grows. */
  lemma FinishKeeps(step: CrcStep, options: Options, f0: Bytes, f1: Bytes, f2: Bytes, f3: Bytes, file: Bytes, l: Layout)
    requires SortedKeys(l.all) && Cutting(l.all, l.cuts, l.blocks) && AllStored(step, f0, l.blocks)
    requires |l.cuts| == |l.blocks| + 1 && l.cuts[|l.blocks|] == |l.all|
    requires |l.index.shape.pairs| == |l.blocks| && IndexFor(l.all, l.cuts, l.blocks, l.index.shape.pairs)
    requires FilterWritten(step, options, f0, f1, l.all, l.cuts, l.blocks, l.filter)
    requires Wrote(step, f1, f2, l.meta) && Wrote(step, f2, f3, l.index)
    requires l.meta.shape.pairs == MetaPairs(options, if l.filter.Some? then l.filter.value.handle else Handle(0, 0))
    requires |HandleBytes(l.meta.handle)| <= 20 && |HandleBytes(l.index.handle)| <= 20
    requires file == f3 + FooterBytes(l.meta.handle, l.index.handle)
    ensures TableFile(step, options, file, l)
  {
    hide *;
    Grown(step, options, f0, f1, f2, f3, file, l);
    FooterAtEnd(f3, file, l.meta.handle, l.index.handle);
    IsTableFile(step, options, file, l);
  }

  lemma IsTableFile(step: CrcStep, options: Options, file: Bytes, l: Layout)
    requires SortedKeys(l.all) && Cutting(l.all, l.cuts, l.blocks) && AllStored(step, file, l.blocks)
    requires |l.cuts| == |l.blocks| + 1 && l.cuts[|l.blocks|] == |l.all|
    requires |l.index.shape.pairs| == |l.blocks| && IndexFor(l.all, l.cuts, l.blocks, l.index.shape.pairs)
    requires FilterStored(step, options, file, l.all, l.cuts, l.blocks, l.filter)
    requires Stored(step, file, l.meta) && Stored(step, file, l.index)
    requires l.meta.shape.pairs == MetaPairs(options, if l.filter.Some? then l.filter.value.handle else Handle(0, 0))
    requires |HandleBytes(l.meta.handle)| <= 20 && |HandleBytes(l.index.handle)| <= 20
    requires |file| >= FOOTER_SIZE && file[|file| - FOOTER_SIZE..] == FooterBytes(l.meta.handle, l.index.handle)
    ensures TableFile(step, options, file, l)
  {
    hide SortedKeys, Cutting, AllStored, IndexFor, FilterStored, Stored, MetaPairs, HandleBytes, FooterBytes;
  }

  lemma FooterAtEnd(f3: Bytes, file: Bytes, meta: Handle, index: Handle)
    requires |HandleBytes(meta)| <= 20 && |HandleBytes(index)| <= 20 && file == f3 + FooterBytes(meta, index)
    ensures |file| >= FOOTER_SIZE && file[|file| - FOOTER_SIZE..] == FooterBytes(meta, index) && f3 <= file
  {
    hide FooterBytes, HandleBytes;
  }

  lemma Grown(step: CrcStep, options: Options, f0: Bytes, f1: Bytes, f2: Bytes, f3: Bytes, file: Bytes, l: Layout)
    requires AllStored(step, f0, l.blocks) && FilterWritten(step, options, f0, f1, l.all, l.cuts, l.blocks, l.filter)
    requires Wrote(step, f1, f2, l.meta) && Wrote(step, f2, f3, l.index) && f3 <= file
    ensures AllStored(step, file, l.blocks) && FilterStored(step, options, file, l.all, l.cuts, l.blocks, l.filter)
    ensures Stored(step, file, l.meta) && Stored(step, file, l.index)
  {
    hide AllStored, FilterStored, Stored;
    StoredParts(step, f1, f2, l.meta);
    StoredParts(step, f2, f3, l.index);
    AllStoredIn(step, f0, file, l.blocks);
    StoredIn(step, f2, file, l.meta);
    StoredIn(step, f3, file, l.index);
    FilterStays(step, options, f1, file, l.all, l.cuts, l.blocks, l.filter);
  }

  lemma AllStoredIn(step: CrcStep, before: Bytes, after: Bytes, blocks: seq<StoredBlock>)
    requires before <= after && AllStored(step, before, blocks)
    ensures AllStored(step, after, blocks)
  {
    assert after == before + after[|before|..];
    AllStoredStays(step, before, after[|before|..], blocks);
    hide AllStored;
  }

  lemma StoredIn(step: CrcStep, before: Bytes, after: Bytes, w: StoredBlock)
    requires before <= after && Stored(step, before, w)
    ensures Stored(step, after, w)
  {
    hide BlockAt, BlockOf;
    assert after == before + after[|before|..];
    BlockStays(step, before, after[|before|..], w.handle, w.data);
  }

  lemma FilterStays(step: CrcStep, options: Options, before: Bytes, after: Bytes, all: seq<Pair>, cuts: seq<nat>, blocks: seq<StoredBlock>,
                    part: Option<FilterPart>)
    requires before <= after && FilterStored(step, options, before, all, cuts, blocks, part)
    ensures FilterStored(step, options, after, all, cuts, blocks, part)
  {
    hide BlockAt, FilterBlock, AddedOk, Covered;
    if part.Some? {
      assert after == before + after[|before|..];
      BlockStays(step, before, after[|before|..], part.value.handle, part.value.contents);
    }
  }

  /** What is kept when the block that was being filled is written. */
  lemma FlushKeeps(step: CrcStep, before: Bytes, after: Bytes, all: seq<Pair>, cuts: seq<nat>, blocks: seq<StoredBlock>, index: seq<Pair>, w: StoredBlock)
    requires Cutting(all, cuts, blocks) && AllStored(step, before, blocks) && IndexFor(all, cuts, blocks, index)
    requires Wrote(step, before, after, w)
    requires |cuts| == |blocks| + 1 && cuts[|blocks|] <= |all| && w.shape.pairs == all[cuts[|blocks|]..] != []
    ensures Cutting(all, cuts + [|all|], blocks + [w]) && AllStored(step, after, blocks + [w])
    ensures IndexFor(all, cuts + [|all|], blocks + [w], index)
    ensures w.handle.offset == |before| <= |after| && w.handle.size < LONG && w.handle.offset < LONG
  {
    hide *;
    WroteParts(step, before, after, w);
    AllStoredMore(step, before, after, blocks, w);
    CuttingBlock(all, cuts, blocks, w);
    IndexBlock(all, cuts, blocks, index, |all|, w);
  }

  /** The file has grown by a block. */
  ghost predicate Wrote(step: CrcStep, before: Bytes, after: Bytes, w: StoredBlock) {
    before <= after && w.handle.offset == |before| && Stored(step, after, w)
  }

  lemma WroteIt(step: CrcStep, before: Bytes, after: Bytes, w: StoredBlock)
    requires BlockAt(step, after, w.handle, w.data) && BlockOf(w.data, w.shape) && before <= after
    requires w.handle == Handle(|before|, |w.data|) && |after| < LONG
    ensures Wrote(step, before, after, w)
  {
    hide BlockOf;
  }

  lemma WroteParts(step: CrcStep, before: Bytes, after: Bytes, w: StoredBlock)
    requires Wrote(step, before, after, w)
    ensures w.handle.offset == |before| <= |after| && w.handle.size < LONG && w.handle.offset < LONG
  {
  }

  lemma AllStoredMore(step: CrcStep, before: Bytes, after: Bytes, blocks: seq<StoredBlock>, w: StoredBlock)
    requires AllStored(step, before, blocks) && Wrote(step, before, after, w)
    ensures AllStored(step, after, blocks + [w])
  {
    AllStoredIn(step, before, after, blocks);
    hide Stored;
  }
}
