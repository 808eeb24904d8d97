/** The two-level iterator: an index over blocks, and an iterator over the current block. */
module TwoLevel {
  import opened Keys
  import opened CompactionWork
  import opened Merger

  /** How many entries the first n blocks hold. */
  function Start(blocks: seq<seq<Entry>>, n: nat): (p: nat)
    requires n <= |blocks|
    ensures p == |Flatten(blocks[..n])|
  {
    if n == 0 then 0 else
    assert blocks[..n][..n - 1] == blocks[..n - 1];
    Start(blocks, n - 1) + |blocks[n - 1]|
  }

  lemma {:induction false} StartAtMost(blocks: seq<seq<Entry>>, n: nat)
    requires n <= |blocks|
    ensures Start(blocks, n) <= |Flatten(blocks)| && (n == |blocks| ==> Start(blocks, n) == |Flatten(blocks)|)
    decreases |blocks|
  {
    assert blocks[..|blocks|] == blocks;
    if n < |blocks| {
      var m := |blocks| - 1;
      StartAtMost(blocks[..m], n);
      assert blocks[..m][..n] == blocks[..n];
    }
  }

  /** The j-th entry of the n-th block, among all entries. */
  lemma {:induction false} EntryInFlatten(blocks: seq<seq<Entry>>, n: nat, j: nat)
    requires n < |blocks| && j < |blocks[n]|
    ensures Start(blocks, n) + j < |Flatten(blocks)| && Flatten(blocks)[Start(blocks, n) + j] == blocks[n][j]
    decreases |blocks|
  {
    var m := |blocks| - 1;
    StartAtMost(blocks, n);
    if n < m {
      EntryInFlatten(blocks[..m], n, j);
      assert blocks[..m][..n] == blocks[..n];
    } else {
      assert blocks[..n] == blocks[..m];
    }
  }

  // ------------------------------------------------------------------ the index

  /** The index key of a block is at or after its entries and before those of later blocks. */
  ghost predicate IndexOk(blocks: seq<seq<Entry>>, bounds: seq<InternalKey>) {
    && |bounds| == |blocks|
    && (forall i, e :: 0 <= i < |blocks| && e in blocks[i] ==> !Less(bounds[i], e.key))
    && (forall i, j, e :: 0 <= i < j < |blocks| && e in blocks[j] ==> Less(bounds[i], e.key))
    && (forall i, j :: 0 <= i < j < |bounds| ==> !Less(bounds[j], bounds[i]))
  }

  /** Seek in the index: the first block whose index key is at or after the target. */
  method FindBlock(bounds: seq<InternalKey>, t: InternalKey) returns (n: nat)
    ensures n <= |bounds| && (forall i :: 0 <= i < n ==> Less(bounds[i], t)) && (n < |bounds| ==> !Less(bounds[n], t))
  {
    n := 0;
    while n < |bounds| && Less(bounds[n], t)
      invariant n <= |bounds| && forall i :: 0 <= i < n ==> Less(bounds[i], t)
    {
      n := n + 1;
    }
  }

  /** The block found by the index holds the lower bound, or it is the start of the next one. */
  lemma SeekSplits(blocks: seq<seq<Entry>>, bounds: seq<InternalKey>, n: nat, t: InternalKey)
    requires IndexOk(blocks, bounds) && Sorted(Flatten(blocks)) && n <= |bounds|
    requires (forall i :: 0 <= i < n ==> Less(bounds[i], t)) && (n < |bounds| ==> !Less(bounds[n], t))
    ensures LowerBound(Flatten(blocks), t) == Start(blocks, n) + if n < |blocks| then LowerBound(blocks[n], t) else 0
  {
    var all := Flatten(blocks);
    var p := Start(blocks, n) + if n < |blocks| then LowerBound(blocks[n], t) else 0;
    StartAtMost(blocks, n);
    if n < |blocks| {
      StartAtMost(blocks, n + 1);
      BlockSorted(blocks, n);
      LowerBoundSplits(blocks[n], t);
    }
    hide Flatten, Start, LowerBound;
    forall q | 0 <= q < |all|
      ensures Less(all[q].key, t) <==> q < p
    {
      var i, j := PlaceOf(blocks, q);
      FlatOrder(blocks, i, n);
      if i < n {
        assert all[q] in blocks[i] && !Less(bounds[i], all[q].key) && Less(bounds[i], t);
      } else if i > n {
        assert all[q] in blocks[i] && Less(bounds[n], all[q].key);
      }
    }
    LowerBoundIs(all, t, p);
  }

  /** The block and the place in it of an entry. */
  lemma {:induction false} PlaceOf(blocks: seq<seq<Entry>>, q: nat) returns (i: nat, j: nat)
    requires q < |Flatten(blocks)|
    ensures i < |blocks| && j < |blocks[i]| && q == Start(blocks, i) + j && Flatten(blocks)[q] == blocks[i][j]
    decreases |blocks|
  {
    var m := |blocks| - 1;
    StartAtMost(blocks, m);
    if q < |Flatten(blocks[..m])| {
      i, j := PlaceOf(blocks[..m], q);
      assert blocks[..m][..i] == blocks[..i];
    } else {
      i, j := m, q - |Flatten(blocks[..m])|;
    }
  }

  lemma {:induction false} FlatOrder(blocks: seq<seq<Entry>>, i: nat, n: nat)
    requires i < |blocks| && n <= |blocks|
    ensures i < n ==> Start(blocks, i) + |blocks[i]| <= Start(blocks, n)
    ensures n < i ==> Start(blocks, n) + |blocks[n]| <= Start(blocks, i)
    decreases if i < n then n - i else i - n
  {
    if i < n - 1 {
      FlatOrder(blocks, i, n - 1);
    } else if n < i - 1 {
      FlatOrder(blocks, i - 1, n);
    }
  }

  lemma BlockSorted(blocks: seq<seq<Entry>>, n: nat)
    requires Sorted(Flatten(blocks)) && n < |blocks|
    ensures Sorted(blocks[n])
  {
    forall i, j | 0 <= i < j < |blocks[n]|
      ensures Less(blocks[n][i].key, blocks[n][j].key)
    {
      EntryInFlatten(blocks, n, i);
      EntryInFlatten(blocks, n, j);
    }
  }

  // ------------------------------------------------------------------ the iterator

  /** Refines a cursor over the concatenation of the blocks: `pos` is the abstract
      position, and the number of entries is its one invalid value. */
  class TwoLevelIterator {
    const blocks: seq<seq<Entry>>
    const bounds: seq<InternalKey>
    var index: nat                    // the index iterator; |blocks| is its invalid position
    var data: Cursor?                 // the iterator over the current block, or null
    var dataBlock: nat                // the block that `data` was made for
    ghost var pos: nat

    ghost function Contents(): seq<Entry> {
      Flatten(blocks)
    }

    /** The data iterator, if there is one, belongs to the block the index is at. */
    ghost predicate Placed()
      reads this, data
    {
      && index <= |blocks| && (index == |blocks| ==> data == null)
      && (data != null ==> dataBlock == index && data.entries == blocks[index])
    }

    ghost predicate Ok()
      reads this, data
    {
      && Placed()
      && (data == null ==> pos == |Contents()|)
      && (data != null ==> data.Valid() && pos == Start(blocks, index) + data.pos)
    }

    constructor (blocks: seq<seq<Entry>>, bounds: seq<InternalKey>)
      ensures Ok() && pos == |Flatten(blocks)| && this.blocks == blocks && this.bounds == bounds && data == null
    {
      this.blocks, this.bounds := blocks, bounds;
      index, data, dataBlock, pos := |blocks|, null, 0, |Flatten(blocks)|;
    }

    predicate Valid()
      reads this, data
    {
      data != null && data.Valid()
    }

    /** A valid iterator shows the entry at its position. */
    function Current(): (e: Entry)
      requires Ok() && Valid()
      reads this, data
      ensures pos < |Contents()| && e == Contents()[pos]
    {
      EntryInFlatten(blocks, index, data.pos);
      data.Current()
    }

    /** Makes the data iterator for the block the index is at, unless it is there already. */
    method InitDataBlock()
      requires index <= |blocks| && (data != null ==> dataBlock < |blocks| && data.entries == blocks[dataBlock])
      modifies this`data, this`dataBlock
      ensures Placed() && (index < |blocks| ==> data != null)
      ensures data == old(data) || data == null || fresh(data)
    {
      if index == |blocks| {
        data := null;
      } else if data != null && dataBlock == index {
        // already made for this block
      } else {
        data := new Cursor(blocks[index]);
        dataBlock := index;
      }
    }

    /** Goes forward over blocks without a further entry.  The iterator stands where `p`
        entries are before it. */
    method SkipEmptyDataBlocksForward(ghost p: nat)
      requires Placed() && (index < |blocks| ==> data != null)
      requires p == Start(blocks, index) + if data == null then 0 else data.pos
      requires data != null ==> data.pos <= |data.entries|
      modifies this, data
      ensures Ok() && pos == p
      ensures data == old(data) || data == null || fresh(data)
    {
      hide Flatten;
      StartAtMost(blocks, index);
      while data == null || !data.Valid()
        invariant Placed() && (index < |blocks| ==> data != null)
        invariant p == Start(blocks, index) + if data == null then 0 else data.pos
        invariant data != null ==> data.pos <= |data.entries|
        invariant data == old(data) || data == null || fresh(data)
        decreases |blocks| - index, data != null
      {
        if index == |blocks| {
          data := null;
          break;
        }
        index := index + 1;
        InitDataBlock();
        if data != null {
          data.SeekToFirst();
        }
      }
      StartAtMost(blocks, index);
      pos := p;
    }

    /** Goes backward over blocks without an earlier entry.  The last of the first `q`
        entries is to be found. */
    method SkipEmptyDataBlocksBackward(ghost q: nat)
      requires Placed() && (index < |blocks| ==> data != null)
      requires data != null && data.Valid() ==> q == Start(blocks, index) + data.pos + 1
      requires data != null && !data.Valid() ==> q == Start(blocks, index)
      requires data == null ==> q == 0
      modifies this, data
      ensures Ok() && pos == if q == 0 then |Contents()| else q - 1
      ensures data == old(data) || data == null || fresh(data)
    {
      hide Flatten;
      while data == null || !data.Valid()
        invariant Placed() && (index < |blocks| ==> data != null)
        invariant data != null && data.Valid() ==> q == Start(blocks, index) + data.pos + 1
        invariant data != null && !data.Valid() ==> q == Start(blocks, index)
        invariant data == null ==> q == 0
        invariant data == old(data) || data == null || fresh(data)
        decreases if data == null then 0 else index + 1
      {
        if index == |blocks| {
          data := null;
          break;
        }
        index := if index == 0 then |blocks| else index - 1;
        InitDataBlock();
        if data != null {
          data.SeekToLast();
        }
      }
      pos := if q == 0 then |Contents()| else q - 1;
    }

    method Seek(t: InternalKey)
      requires Ok() && IndexOk(blocks, bounds) && Sorted(Contents())
      modifies this, data
      ensures Ok() && pos == LowerBound(Contents(), t)
      ensures data == old(data) || data == null || fresh(data)
    {
      hide Flatten, LowerBound, Sorted, Start;
      index := FindBlock(bounds, t);
      SeekSplits(blocks, bounds, index, t);
      InitDataBlock();
      if data != null {
        data.Seek(t);
      }
      SkipEmptyDataBlocksForward(LowerBound(Contents(), t));
    }

    method SeekToFirst()
      requires Ok()
      modifies this, data
      ensures Ok() && pos == 0
      ensures data == old(data) || data == null || fresh(data)
    {
      index := 0;
      InitDataBlock();
      if data != null {
        data.SeekToFirst();
      }
      SkipEmptyDataBlocksForward(0);
    }

    method SeekToLast()
      requires Ok()
      modifies this, data
      ensures Ok() && pos == LastOf(|Contents()|, |Contents()|)
      ensures data == old(data) || data == null || fresh(data)
    {
      hide Flatten;
      StartAtMost(blocks, |blocks|);
      index := if blocks == [] then 0 else |blocks| - 1;
      InitDataBlock();
      if data != null {
        data.SeekToLast();
      }
      SkipEmptyDataBlocksBackward(|Contents()|);
    }

    method Next()
      requires Ok() && Valid()
      modifies this, data
      ensures Ok() && pos == old(pos) + 1
      ensures data == old(data) || data == null || fresh(data)
    {
      data.Next();
      SkipEmptyDataBlocksForward(pos + 1);
    }

    method Prev()
      requires Ok() && Valid()
      modifies this, data
      ensures Ok() && pos == LastOf(old(pos), |Contents()|)
      ensures data == old(data) || data == null || fresh(data)
    {
      data.Prev();
      SkipEmptyDataBlocksBackward(pos);
    }
  }
}
