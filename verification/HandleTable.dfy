/** The hash table of the cache (HandleTable in util/cache.cc): chains of entries linked
    through the entries themselves. */
module HandleTables {
  import opened Coding
  import opened Logs

  /** A cache entry.  The table links it through `nextHash`, the lists of the cache
      through `next` and `prev`. */
  class LRUHandle {
    const key: Bytes
    const hash: Word
    const value: string
    const charge: nat
    var nextHash: LRUHandle?
    var next: LRUHandle?
    var prev: LRUHandle?
    var inCache: bool     // whether the cache itself has a reference on the entry
    var refs: nat         // references, with that of the cache

    constructor (key: Bytes, hash: Word, value: string, charge: nat)
      ensures this.key == key && this.hash == hash && this.value == value && this.charge == charge
      ensures !inCache && refs == 1
    {
      this.key, this.hash, this.value, this.charge := key, hash, value, charge;
      nextHash, next, prev, inCache, refs := null, null, null, false, 1;
    }
  }

  // ------------------------------------------------------------------ chains

  ghost function Elements(s: seq<LRUHandle>): set<LRUHandle> {
    set x | x in s
  }

  ghost predicate ChainOk(head: LRUHandle?, s: seq<LRUHandle>)
    reads s`nextHash
  {
    && head == (if |s| == 0 then null else s[0])
    && forall i {:trigger s[i].nextHash} :: 0 <= i < |s| ==> s[i].nextHash == if i + 1 < |s| then s[i + 1] else null
  }

  lemma ChainNext(head: LRUHandle?, s: seq<LRUHandle>, i: nat)
    requires ChainOk(head, s) && i < |s|
    ensures s[i].nextHash == if i + 1 < |s| then s[i + 1] else null
  {
  }

  /** Walks down a chain to the entry of a key, or to the end. */
  method SearchChain(head: LRUHandle?, key: Bytes, hash: Word, ghost s: seq<LRUHandle>)
    returns (prev: LRUHandle?, cur: LRUHandle?, ghost pos: nat)
    requires ChainOk(head, s) && forall i :: 0 <= i < |s| && s[i].key == key ==> s[i].hash == hash
    ensures pos <= |s| && forall i :: 0 <= i < pos ==> s[i].key != key
    ensures cur == (if pos < |s| then s[pos] else null) && prev == (if pos == 0 then null else s[pos - 1])
    ensures cur != null ==> cur.key == key
  {
    hide ChainOk;
    prev, cur, pos := null, head, 0;
    ChainHead(head, s);
    while cur != null && (cur.hash != hash || cur.key != key)
      invariant pos <= |s| && cur == (if pos < |s| then s[pos] else null) && prev == (if pos == 0 then null else s[pos - 1])
      invariant forall i :: 0 <= i < pos ==> s[i].key != key
      decreases |s| - pos
    {
      ChainNext(head, s, pos);
      prev, cur, pos := cur, cur.nextHash, pos + 1;
    }
  }

  lemma ChainHead(head: LRUHandle?, s: seq<LRUHandle>)
    requires ChainOk(head, s)
    ensures head == if |s| == 0 then null else s[0]
  {
  }

  /** The chains hold the entries of a map, each in the bucket of its hash and once. */
  ghost predicate Holds(hashOf: Bytes -> Word, length: nat, chains: seq<seq<LRUHandle>>, contents: map<Bytes, LRUHandle>)
    requires length > 0
  {
    && |chains| == length
    && (forall b, i :: 0 <= b < length && 0 <= i < |chains[b]| ==> InBucket(hashOf, length, contents, chains[b][i], b))
    && (forall b, i, j :: 0 <= b < length && 0 <= i < j < |chains[b]| ==> chains[b][i].key != chains[b][j].key)
    && (forall k :: k in contents ==> contents[k].key == k && contents[k] in chains[hashOf(k) % length])
  }

  ghost predicate InBucket(hashOf: Bytes -> Word, length: nat, contents: map<Bytes, LRUHandle>, h: LRUHandle, b: nat)
    requires length > 0
  {
    h.hash == hashOf(h.key) && h.hash % length == b && h.key in contents && contents[h.key] == h
  }

  predicate PowerOfTwo(n: nat) {
    n == 1 || (n > 1 && n % 2 == 0 && PowerOfTwo(n / 2))
  }

  ghost function Nodes(chains: seq<seq<LRUHandle>>): set<LRUHandle> {
    set c, i | 0 <= c < |chains| && 0 <= i < |chains[c]| :: chains[c][i]
  }

  /** Each bucket heads its chain. */
  ghost predicate LinksOk(list: array<LRUHandle?>, chains: seq<seq<LRUHandle>>)
    reads list, Nodes(chains)`nextHash
  {
    |chains| == list.Length && forall c :: 0 <= c < |chains| ==> ChainOk(list[c], chains[c])
  }

  function Owner(h: LRUHandle?): set<LRUHandle> {
    if h == null then {} else {h}
  }

  /** Stores to a slot, which is a bucket or the link of an entry: the part of the chain
      before it stays, and what follows is the chain that `to` heads. */
  method SetSlot(list: array<LRUHandle?>, b: nat, prev: LRUHandle?, to: LRUHandle?, ghost s: seq<LRUHandle>, ghost pos: nat, ghost t: seq<LRUHandle>)
    requires b < list.Length && ChainOk(list[b], s) && ChainOk(to, t)
    requires pos <= |s| && prev == (if pos == 0 then null else s[pos - 1])
    requires prev !in t && forall i :: 0 <= i < pos - 1 ==> s[i] != prev
    modifies list, Owner(prev)`nextHash
    ensures ChainOk(list[b], s[..pos] + t)
    ensures forall c :: 0 <= c < list.Length && c != b ==> list[c] == old(list[c])
  {
    ghost var s' := s[..pos] + t;
    if prev == null {
      list[b] := to;
      assert s' == t;
    } else {
      prev.nextHash := to;
      assert list[b] == s[0] == s'[0];
      forall i {:trigger s'[i].nextHash} | 0 <= i < |s'|
        ensures s'[i].nextHash == if i + 1 < |s'| then s'[i + 1] else null
      {
        if i < pos - 1 {
          assert s'[i] == s[i] && s'[i + 1] == s[i + 1] && s[i].nextHash == old(s[i].nextHash);
        } else if i >= pos {
          assert s'[i] == t[i - pos] && t[i - pos].nextHash == old(t[i - pos].nextHash);
        } else {
          assert s'[i] == prev;
        }
      }
    }
  }

  /** The slot of one chain is stored to; the others stay. */
  method Relink(list: array<LRUHandle?>, b: nat, prev: LRUHandle?, to: LRUHandle?, ghost chains: seq<seq<LRUHandle>>, ghost pos: nat, ghost t: seq<LRUHandle>)
    requires LinksOk(list, chains) && b < list.Length && ChainOk(to, t)
    requires pos <= |chains[b]| && prev == (if pos == 0 then null else chains[b][pos - 1])
    requires prev !in t && forall i :: 0 <= i < pos - 1 ==> chains[b][i] != prev
    requires forall c :: 0 <= c < |chains| && c != b ==> prev !in chains[c]
    modifies list, Owner(prev)`nextHash
    ensures LinksOk(list, chains[b := chains[b][..pos] + t])
  {
    assert ChainOk(list[b], chains[b]);
    hide ChainOk;
    SetSlot(list, b, prev, to, chains[b], pos, t);
    forall c | 0 <= c < |chains| && c != b
      ensures ChainOk(list[c], chains[c])
    {
      assert old(ChainOk(list[c], chains[c]));
    }
  }

  /** A slot of a chain: its place, the entry before it, and that it is nowhere else. */
  ghost predicate SlotAt(chains: seq<seq<LRUHandle>>, b: nat, pos: nat, prev: LRUHandle?) {
    && b < |chains| && pos <= |chains[b]| && prev == (if pos == 0 then null else chains[b][pos - 1])
    && Distinct(chains[b])
    && (forall c :: 0 <= c < |chains| && c != b ==> prev !in chains[c])
  }

  ghost predicate Distinct(s: seq<LRUHandle>) {
    forall i, j :: 0 <= i < j < |s| ==> s[i] != s[j]
  }

  /** Takes the entry of a slot out of its chain. */
  method Unlink(list: array<LRUHandle?>, b: nat, prev: LRUHandle?, cur: LRUHandle, ghost chains: seq<seq<LRUHandle>>, ghost pos: nat)
    requires LinksOk(list, chains) && SlotAt(chains, b, pos, prev) && pos < |chains[b]| && cur == chains[b][pos]
    modifies list, Owner(prev)`nextHash
    ensures LinksOk(list, chains[b := chains[b][..pos] + chains[b][pos + 1..]])
  {
    ChainAfter(list[b], chains[b], pos);
    hide ChainOk, LinksOk;
    Relink(list, b, prev, cur.nextHash, chains, pos, chains[b][pos + 1..]);
  }

  /** Puts an entry in a slot, instead of the one that is there. */
  method Link(list: array<LRUHandle?>, b: nat, prev: LRUHandle?, cur: LRUHandle?, h: LRUHandle, ghost chains: seq<seq<LRUHandle>>, ghost pos: nat)
    requires LinksOk(list, chains) && SlotAt(chains, b, pos, prev) && cur == (if pos < |chains[b]| then chains[b][pos] else null)
    requires forall c :: 0 <= c < |chains| ==> h !in chains[c]
    modifies list, Owner(prev)`nextHash, h`nextHash
    ensures LinksOk(list, chains[b := chains[b][..pos] + ([h] + Rest(chains[b], pos))])
  {
    ghost var rest := Rest(chains[b], pos);
    if cur != null {
      ChainAfter(list[b], chains[b], pos);
    }
    ghost var after := if cur == null then null else cur.nextHash;
    assert ChainOk(after, rest);
    SetNext(list, h, if cur == null then null else cur.nextHash, chains, rest);
    hide ChainOk, LinksOk;
    ChainFront(h, rest);
    Relink(list, b, prev, h, chains, pos, [h] + rest);
  }

  function Rest(s: seq<LRUHandle>, pos: nat): seq<LRUHandle> {
    if pos < |s| then s[pos + 1..] else []
  }

  /** The link of an entry outside the chains is set. */
  method SetNext(list: array<LRUHandle?>, h: LRUHandle, to: LRUHandle?, ghost chains: seq<seq<LRUHandle>>, ghost t: seq<LRUHandle>)
    requires LinksOk(list, chains) && ChainOk(to, t) && h !in t && forall c :: 0 <= c < |chains| ==> h !in chains[c]
    modifies h`nextHash
    ensures LinksOk(list, chains) && ChainOk(h.nextHash, t)
  {
    hide ChainOk;
    h.nextHash := to;
    forall c | 0 <= c < |chains|
      ensures ChainOk(list[c], chains[c])
    {
      assert old(ChainOk(list[c], chains[c]));
    }
  }

  // ------------------------------------------------------------------ the table

  class HandleTable {
    ghost const hashOf: Bytes -> Word
    var length: nat                      // a power of two
    var elems: nat
    var list: array<LRUHandle?>
    ghost var chains: seq<seq<LRUHandle>>
    ghost var contents: map<Bytes, LRUHandle>
    ghost var entries: set<LRUHandle>    // all entries that were ever put in

    /** The structure without the links between entries. */
    ghost predicate Shape()
      reads this`length, this`elems, this`list, this`chains, this`contents, this`entries
    {
      && PowerOfTwo(length) && length == list.Length == |chains| && length > 0 && elems == |contents|
      && Holds(hashOf, length, chains, contents) && Nodes(chains) <= entries
    }

    ghost predicate Ok()
      reads this`length, this`elems, this`list, this`chains, this`contents, this`entries, list, entries`nextHash
    {
      Shape() && LinksOk(list, chains)
    }

    constructor (ghost hashOf: Bytes -> Word)
      ensures Ok() && contents == map[] && entries == {} && this.hashOf == hashOf && fresh(list)
    {
      this.hashOf := hashOf;
      length, elems, chains, contents, entries := 1, 0, [[]], map[], {};
      list := new LRUHandle?[1](_ => null);
      new;
      Resize();
    }

    /** The slot that points to the entry of the key: the bucket (if `prev` is null) or
        the link of the entry before; `cur` is what the slot holds. */
    method FindPointer(key: Bytes, hash: Word) returns (prev: LRUHandle?, cur: LRUHandle?, ghost pos: nat)
      requires Ok() && hash == hashOf(key)
      ensures cur == if key in contents then contents[key] else null
      ensures var s := chains[hash % length];
              && pos <= |s| && cur == (if pos < |s| then s[pos] else null) && prev == (if pos == 0 then null else s[pos - 1])
              && (cur != null ==> cur.key == key)
    {
      var b := hash % length;
      BucketOk(b);
      hide Ok, Shape, Holds, ChainOk;
      prev, cur, pos := SearchChain(list[b], key, hash, chains[b]);
      NotFound(key, hash, pos);
    }

    lemma BucketOk(b: nat)
      requires Ok() && b < length
      ensures b < |chains| == list.Length && ChainOk(list[b], chains[b])
      ensures forall i :: 0 <= i < |chains[b]| ==> chains[b][i].hash == hashOf(chains[b][i].key)
    {
      hide PowerOfTwo, ChainOk;
      forall i | 0 <= i < |chains[b]|
        ensures chains[b][i].hash == hashOf(chains[b][i].key)
      {
        assert InBucket(hashOf, length, contents, chains[b][i], b);
      }
    }

    /** A search that passes no entry with the key finds the one of the map. */
    lemma NotFound(key: Bytes, hash: Word, pos: nat)
      requires Ok() && hash == hashOf(key)
      requires pos <= |chains[hash % length]| && forall i :: 0 <= i < pos ==> chains[hash % length][i].key != key
      requires pos < |chains[hash % length]| ==> chains[hash % length][pos].key == key
      ensures pos < |chains[hash % length]| ==> key in contents && contents[key] == chains[hash % length][pos]
      ensures pos == |chains[hash % length]| ==> key !in contents
    {
      var s := chains[hash % length];
      if pos < |s| {
        assert InBucket(hashOf, length, contents, s[pos], hash % length);
      }
    }

    method Lookup(key: Bytes, hash: Word) returns (h: LRUHandle?)
      requires Ok() && hash == hashOf(key)
      ensures h == if key in contents then contents[key] else null
    {
      var prev, cur, pos := FindPointer(key, hash);
      return cur;
    }

    /** The slot that a search finds. */
    lemma SlotOk(b: nat, pos: nat, prev: LRUHandle?)
      requires Ok() && b < length && pos <= |chains[b]| && prev == (if pos == 0 then null else chains[b][pos - 1])
      ensures SlotAt(chains, b, pos, prev) && Owner(prev) <= entries
    {
      hide PowerOfTwo, LinksOk;
      if pos > 0 {
        Bucket(b, prev);
        forall c | 0 <= c < length && c != b
          ensures prev !in chains[c]
        {
          Bucket(c, prev);
        }
      }
    }

    lemma NotInside(h: LRUHandle)
      requires Ok() && h !in Nodes(chains)
      ensures forall c :: 0 <= c < |chains| ==> h !in chains[c]
    {
      forall c, i | 0 <= c < |chains| && 0 <= i < |chains[c]|
        ensures h != chains[c][i]
      {
        assert chains[c][i] in Nodes(chains);
      }
    }

    lemma Bucket(b: nat, x: LRUHandle)
      requires Ok() && b < length
      ensures x in chains[b] ==> x.hash % length == b && x.key in contents && contents[x.key] == x
    {
      if x in chains[b] {
        var i :| 0 <= i < |chains[b]| && chains[b][i] == x;
        assert InBucket(hashOf, length, contents, chains[b][i], b);
      }
    }

    /** An entry that is not in the map is in no chain. */
    lemma NotNode(h: LRUHandle)
      requires Ok() && (h.key in contents ==> contents[h.key] != h)
      ensures h !in Nodes(chains)
    {
      forall c, i | 0 <= c < |chains| && 0 <= i < |chains[c]|
        ensures chains[c][i] != h
      {
        Bucket(c, chains[c][i]);
      }
    }

    method Remove(key: Bytes, hash: Word) returns (result: LRUHandle?)
      requires Ok() && hash == hashOf(key)
      modifies this`elems, this`chains, this`contents, list, entries`nextHash
      ensures Ok() && contents == old(contents) - {key} && result == if key in old(contents) then old(contents)[key] else null
    {
      hide Holds, ChainOk, LinksOk, Nodes;
      var prev, cur, pos := FindPointer(key, hash);
      if cur == null {
        assert contents - {key} == contents;
        return null;
      }
      RemoveFromSlot(hash % length, prev, cur, pos);
      return cur;
    }

    method RemoveFromSlot(b: nat, prev: LRUHandle?, cur: LRUHandle, ghost pos: nat)
      requires Ok() && b < length && pos < |chains[b]| && cur == chains[b][pos] && prev == (if pos == 0 then null else chains[b][pos - 1])
      requires cur.key in contents
      modifies this`elems, this`chains, this`contents, list, entries`nextHash
      ensures Ok() && contents == old(contents) - {cur.key}
    {
      hide PowerOfTwo, Holds, ChainOk, LinksOk, Nodes, SlotAt;
      SlotOk(b, pos, prev);
      Unlink(list, b, prev, cur, chains, pos);
      RemoveHolds(hashOf, length, chains, contents, cur.key, b, pos);
      elems := elems - 1;
      chains, contents := chains[b := chains[b][..pos] + chains[b][pos + 1..]], contents - {cur.key};
    }

    /** Puts an entry in the place of the one with its key, or at the end of its chain;
        returns the entry it replaces. */
    method Insert(h: LRUHandle) returns (replaced: LRUHandle?)
      requires Ok() && h.hash == hashOf(h.key) && h !in Nodes(chains)
      modifies this, list, entries`nextHash, h`nextHash
      ensures Ok() && entries == old(entries) + {h} && contents == old(contents)[h.key := h] && (list == old(list) || fresh(list))
      ensures replaced == if h.key in old(contents) then old(contents)[h.key] else null
    {
      hide PowerOfTwo, Holds, ChainOk, LinksOk, Nodes;
      replaced := PutInSlot(h);
      if replaced == null {
        elems := elems + 1;
        if elems > length {
          Resize();
        }
      }
    }

    method PutInSlot(h: LRUHandle) returns (replaced: LRUHandle?)
      requires Ok() && h.hash == hashOf(h.key) && h !in Nodes(chains)
      modifies this`chains, this`contents, this`entries, list, entries`nextHash, h`nextHash
      ensures entries == old(entries) + {h}
      ensures length == list.Length == |chains| && Holds(hashOf, length, chains, contents)
      ensures Nodes(chains) <= entries && LinksOk(list, chains)
      ensures contents == old(contents)[h.key := h] && |contents| == elems + (if replaced == null then 1 else 0)
      ensures replaced == if h.key in old(contents) then old(contents)[h.key] else null
    {
      hide PowerOfTwo, Holds, ChainOk, LinksOk, Nodes, SlotAt;
      var prev, cur, pos := FindPointer(h.key, h.hash);
      var b := h.hash % length;
      SlotOk(b, pos, prev);
      NotInside(h);
      Link(list, b, prev, cur, h, chains, pos);
      InsertHolds(hashOf, length, chains, contents, h, b, pos);
      chains, contents := chains[b := chains[b][..pos] + ([h] + Rest(chains[b], pos))], contents[h.key := h];
      entries := entries + {h};
      return cur;
    }

    /** Moves all entries to a table of at least as many buckets as there are entries. */
    method Resize()
      requires length == list.Length == |chains| > 0 && Holds(hashOf, length, chains, contents) && Nodes(chains) <= entries
      requires LinksOk(list, chains) && elems == |contents|
      modifies this`length, this`list, this`chains, entries`nextHash
      ensures Ok() && fresh(list) && elems <= length
    {
      hide PowerOfTwo, Holds, ChainOk, LinksOk, Nodes, Spread, Split, Apart, InSet;
      var newLength := NewLength(elems);
      HoldsApart(hashOf, length, chains, contents);
      SplitStart(chains, Nodes(chains));
      var newList, newChains, moved, count := MoveAll(list, chains, Nodes(chains), newLength);
      AllMoved(hashOf, length, chains, contents, newLength, newChains, moved);
      CountValues(contents);
      assert elems == count;
      list, length, chains := newList, newLength, newChains;
    }
  }

  method NewLength(elems: nat) returns (newLength: nat)
    ensures newLength > 0 && newLength >= elems && PowerOfTwo(newLength)
  {
    newLength := 4;
    while newLength < elems
      invariant newLength >= 4 && PowerOfTwo(newLength)
      decreases elems - newLength
    {
      newLength := newLength * 2;
    }
  }

  /** The new table, with all entries of the old one. */
  method MoveAll(list: array<LRUHandle?>, ghost chains: seq<seq<LRUHandle>>, ghost all: set<LRUHandle>, newLength: nat)
    returns (newList: array<LRUHandle?>, ghost newChains: seq<seq<LRUHandle>>, ghost moved: set<LRUHandle>, count: nat)
    requires newLength > 0 && LinksOk(list, chains) && Split(chains, all, 0, {})
    modifies all`nextHash
    ensures fresh(newList) && newList.Length == newLength && LinksOk(newList, newChains) && Spread(newLength, newChains, moved)
    ensures count == |moved| && moved <= all && |chains| == list.Length
    ensures forall c :: 0 <= c < |chains| ==> InSet(chains[c], moved)
  {
    hide *;
    newList := new LRUHandle?[newLength](_ => null);
    newChains, moved, count := seq(newLength, _ => []), {}, 0;
    EmptyLinks(newList, newChains);
    SpreadNone(newLength, newChains);
    LinksParts(list, chains);
    for i := 0 to list.Length
      invariant LinksOk(newList, newChains) && Spread(newLength, newChains, moved) && count == |moved|
      invariant Split(chains, all, i, moved)
      invariant forall x {:trigger x.nextHash} :: x in all && x !in moved ==> x.nextHash == old(x.nextHash)
    {
      SplitParts(chains, all, i, moved);
      assert old(ChainOk(list[i], chains[i]));
      newChains, moved, count := MoveChain(newList, list[i], chains[i], newChains, moved, count);
    }
    SplitEnd(chains, all, list.Length, moved);
  }

  /** The entries of the chains before a bucket are moved, those of the others are not. */
  ghost predicate Split(chains: seq<seq<LRUHandle>>, all: set<LRUHandle>, i: nat, moved: set<LRUHandle>) {
    && Apart(chains) && moved <= all && (forall c :: 0 <= c < |chains| ==> Elements(chains[c]) <= all)
    && (forall c :: 0 <= c < i && c < |chains| ==> Elements(chains[c]) <= moved)
    && (forall c :: i <= c < |chains| ==> Elements(chains[c]) !! moved)
  }

  lemma SplitStart(chains: seq<seq<LRUHandle>>, all: set<LRUHandle>)
    requires Apart(chains) && Nodes(chains) <= all
    ensures Split(chains, all, 0, {})
  {
    NodesElements(chains);
  }

  lemma SplitParts(chains: seq<seq<LRUHandle>>, all: set<LRUHandle>, i: nat, moved: set<LRUHandle>)
    requires Split(chains, all, i, moved) && i < |chains|
    ensures Split(chains, all, i + 1, moved + Elements(chains[i])) && OutOf(chains[i], moved) && Distinct(chains[i])
    ensures (forall x :: x in chains[i] ==> x in all && x !in moved) && Elements(chains[i]) <= all
  {
    ElementsIn(chains[i], all);
    ElementsOut(chains[i], moved);
    hide Elements, Distinct;
  }

  lemma SplitEnd(chains: seq<seq<LRUHandle>>, all: set<LRUHandle>, i: nat, moved: set<LRUHandle>)
    requires Split(chains, all, i, moved) && i == |chains|
    ensures moved <= all && forall c :: 0 <= c < |chains| ==> InSet(chains[c], moved)
  {
    forall c | 0 <= c < |chains|
      ensures InSet(chains[c], moved)
    {
      ElementsIn(chains[c], moved);
    }
  }

  lemma LinksParts(list: array<LRUHandle?>, chains: seq<seq<LRUHandle>>)
    requires LinksOk(list, chains)
    ensures |chains| == list.Length && forall c :: 0 <= c < |chains| ==> ChainOk(list[c], chains[c])
  {
  }

  ghost predicate Apart(chains: seq<seq<LRUHandle>>) {
    && (forall c :: 0 <= c < |chains| ==> Distinct(chains[c]))
    && (forall c, d :: 0 <= c < d < |chains| ==> Elements(chains[c]) !! Elements(chains[d]))
  }

  lemma ElementsOut(s: seq<LRUHandle>, moved: set<LRUHandle>)
    requires Elements(s) !! moved
    ensures OutOf(s, moved)
  {
    assert forall x :: x in s ==> x in Elements(s);
  }

  lemma ElementsIn(s: seq<LRUHandle>, all: set<LRUHandle>)
    requires Elements(s) <= all
    ensures forall x :: x in s ==> x in all
  {
    assert forall x :: x in s ==> x in Elements(s);
  }

  lemma NodesElements(chains: seq<seq<LRUHandle>>)
    ensures forall c :: 0 <= c < |chains| ==> Elements(chains[c]) <= Nodes(chains)
  {
  }

  // ------------------------------------------------------------------ moving chains

  ghost predicate InSet(s: seq<LRUHandle>, moved: set<LRUHandle>) {
    forall x :: x in s ==> x in moved
  }

  ghost predicate OutOf(s: seq<LRUHandle>, moved: set<LRUHandle>) {
    forall x :: x in s ==> x !in moved
  }

  /** The chains hold the moved entries, each in its bucket and once. */
  ghost predicate Spread(length: nat, chains: seq<seq<LRUHandle>>, moved: set<LRUHandle>)
    requires length > 0
  {
    && |chains| == length && (forall b :: 0 <= b < length ==> Distinct(chains[b]))
    && (forall b, x :: 0 <= b < length && x in chains[b] ==> x in moved && x.hash % length == b)
    && (forall x :: x in moved ==> x in chains[x.hash % length])
  }

  lemma SpreadMore(length: nat, chains: seq<seq<LRUHandle>>, moved: set<LRUHandle>, h: LRUHandle)
    requires length > 0 && Spread(length, chains, moved) && h !in moved
    ensures var b := h.hash % length; Spread(length, chains[b := [h] + chains[b]], moved + {h})
  {
  }

  lemma SpreadNone(length: nat, chains: seq<seq<LRUHandle>>)
    requires length > 0 && |chains| == length && forall b :: 0 <= b < length ==> chains[b] == []
    ensures Spread(length, chains, {})
  {
  }

  lemma EmptyLinks(list: array<LRUHandle?>, chains: seq<seq<LRUHandle>>)
    requires |chains| == list.Length && forall b :: 0 <= b < |chains| ==> chains[b] == [] && list[b] == null
    ensures LinksOk(list, chains)
  {
  }

  /** One entry goes to the front of its new chain. */
  method Push(list: array<LRUHandle?>, h: LRUHandle, ghost chains: seq<seq<LRUHandle>>)
    requires list.Length > 0 && LinksOk(list, chains) && forall c :: 0 <= c < |chains| ==> h !in chains[c]
    modifies list, h`nextHash
    ensures var b := h.hash % list.Length; LinksOk(list, chains[b := [h] + chains[b]])
  {
    var b := h.hash % list.Length;
    assert ChainOk(list[b], chains[b]);
    hide ChainOk;
    h.nextHash := list[b];
    forall c | 0 <= c < |chains|
      ensures ChainOk(list[c], chains[c])
    {
      assert old(ChainOk(list[c], chains[c]));
    }
    list[b] := h;
    ChainFront(h, chains[b]);
  }

  method MoveOne(list: array<LRUHandle?>, h: LRUHandle, ghost s: seq<LRUHandle>, ghost chains: seq<seq<LRUHandle>>, ghost moved: set<LRUHandle>)
    returns (next: LRUHandle?, ghost chains': seq<seq<LRUHandle>>)
    requires list.Length > 0 && ChainOk(h, s) && LinksOk(list, chains) && Spread(list.Length, chains, moved)
    requires |s| > 0 && s[0] == h && OutOf(s, moved) && Distinct(s)
    modifies list, h`nextHash
    ensures ChainOk(next, s[1..]) && LinksOk(list, chains') && Spread(list.Length, chains', moved + {h})
    ensures h !in moved && OutOf(s[1..], moved + {h}) && Distinct(s[1..])
  {
    hide LinksOk, ChainOk, Spread;
    next := h.nextHash;
    ChainAfter(h, s, 0);
    NotMoved(list.Length, chains, moved, h);
    Push(list, h, chains);
    SpreadMore(list.Length, chains, moved, h);
    var b := h.hash % list.Length;
    chains' := chains[b := [h] + chains[b]];
    assert h !in s[1..];
  }

  /** The entries of one old chain go to their new chains, one after the other. */
  method MoveChain(list: array<LRUHandle?>, head: LRUHandle?, ghost s: seq<LRUHandle>, ghost chains: seq<seq<LRUHandle>>, ghost moved: set<LRUHandle>, count: nat)
    returns (ghost chains': seq<seq<LRUHandle>>, ghost moved': set<LRUHandle>, count': nat)
    requires list.Length > 0 && ChainOk(head, s) && LinksOk(list, chains) && Spread(list.Length, chains, moved)
    requires OutOf(s, moved) && Distinct(s) && count == |moved|
    modifies list, Elements(s)`nextHash
    ensures LinksOk(list, chains') && Spread(list.Length, chains', moved') && count' == |moved'|
    ensures moved' == moved + Elements(s)
  {
    chains', moved', count' := chains, moved, count;
    var h := head;
    ghost var rest := s;
    hide LinksOk, ChainOk, Spread, Elements, OutOf, Distinct;
    while h != null
      invariant ChainOk(h, rest) && LinksOk(list, chains') && Spread(list.Length, chains', moved')
      invariant OutOf(rest, moved') && Distinct(rest) && count' == |moved'| && moved' + Elements(rest) == moved + Elements(s)
      invariant Elements(rest) <= Elements(s)
      decreases |rest|
    {
      ChainHead(h, rest);
      var next;
      ElementsHead(rest);
      next, chains' := MoveOne(list, h, rest, chains', moved');
      moved', count' := moved' + {h}, count' + 1;
      h, rest := next, rest[1..];
    }
    ChainHead(h, rest);
    NoElements();
  }

  lemma ElementsHead(s: seq<LRUHandle>)
    requires |s| > 0
    ensures Elements(s) == {s[0]} + Elements(s[1..])
  {
  }

  lemma NoElements()
    ensures Elements([]) == {}
  {
  }

  lemma NotMoved(length: nat, chains: seq<seq<LRUHandle>>, moved: set<LRUHandle>, h: LRUHandle)
    requires length > 0 && Spread(length, chains, moved) && h !in moved
    ensures |chains| == length && forall c :: 0 <= c < |chains| ==> h !in chains[c]
  {
  }

  /** No entry is twice in the chains. */
  lemma HoldsApart(hashOf: Bytes -> Word, length: nat, chains: seq<seq<LRUHandle>>, contents: map<Bytes, LRUHandle>)
    requires length > 0 && Holds(hashOf, length, chains, contents)
    ensures Apart(chains)
  {
    forall c, d | 0 <= c < d < length
      ensures Elements(chains[c]) !! Elements(chains[d])
    {
      forall x
        ensures !(x in chains[c] && x in chains[d])
      {
        PlaceIs(hashOf, length, chains, contents, c, x);
        PlaceIs(hashOf, length, chains, contents, d, x);
      }
    }
  }

  lemma PlaceIs(hashOf: Bytes -> Word, length: nat, chains: seq<seq<LRUHandle>>, contents: map<Bytes, LRUHandle>, c: nat, x: LRUHandle)
    requires length > 0 && Holds(hashOf, length, chains, contents) && c < length
    ensures x in chains[c] ==> InBucket(hashOf, length, contents, x, c)
  {
    if x in chains[c] {
      var i :| 0 <= i < |chains[c]| && chains[c][i] == x;
      assert InBucket(hashOf, length, contents, chains[c][i], c);
    }
  }

  /** When all chains are moved, the new ones hold the same map. */
  lemma AllMoved(hashOf: Bytes -> Word, length: nat, chains: seq<seq<LRUHandle>>, contents: map<Bytes, LRUHandle>,
                 length': nat, chains': seq<seq<LRUHandle>>, moved: set<LRUHandle>)
    requires length > 0 && length' > 0 && Holds(hashOf, length, chains, contents) && Spread(length', chains', moved)
    requires moved <= Nodes(chains) && forall c :: 0 <= c < length ==> InSet(chains[c], moved)
    ensures moved == contents.Values && Holds(hashOf, length', chains', contents) && Nodes(chains') <= moved
    ensures forall k :: k in contents ==> contents[k].key == k
  {
    forall k | k in contents
      ensures contents[k] in moved && InBucket(hashOf, length', contents, contents[k], hashOf(k) % length')
    {
      PlaceIs(hashOf, length, chains, contents, hashOf(k) % length, contents[k]);
    }
    forall b, i | 0 <= b < length' && 0 <= i < |chains'[b]|
      ensures InBucket(hashOf, length', contents, chains'[b][i], b)
    {
      assert chains'[b][i] in moved;
    }
    DistinctKeys(hashOf, length', chains', contents);
    HoldsNodes(hashOf, length', chains', contents);
  }

  lemma DistinctKeys(hashOf: Bytes -> Word, length: nat, chains: seq<seq<LRUHandle>>, contents: map<Bytes, LRUHandle>)
    requires length > 0 && |chains| == length && forall b :: 0 <= b < length ==> Distinct(chains[b])
    requires forall b, i :: 0 <= b < length && 0 <= i < |chains[b]| ==> InBucket(hashOf, length, contents, chains[b][i], b)
    ensures forall b, i, j :: 0 <= b < length && 0 <= i < j < |chains[b]| ==> chains[b][i].key != chains[b][j].key
  {
    forall b, i, j | 0 <= b < length && 0 <= i < j < |chains[b]|
      ensures chains[b][i].key != chains[b][j].key
    {
      assert Distinct(chains[b]);
      assert InBucket(hashOf, length, contents, chains[b][i], b) && InBucket(hashOf, length, contents, chains[b][j], b);
    }
  }

  lemma {:induction false} CountValues(contents: map<Bytes, LRUHandle>)
    requires forall k :: k in contents ==> contents[k].key == k
    ensures |contents.Values| == |contents|
    decreases |contents|
  {
    if k :| k in contents {
      var rest := contents - {k};
      CountValues(rest);
      assert contents.Values == rest.Values + {contents[k]} by {
        forall x | x in contents.Values
          ensures x in rest.Values || x == contents[k]
        {
          assert x.key in contents && contents[x.key] == x by {
            var q :| q in contents && contents[q] == x;
          }
          if x.key != k {
            assert x.key in rest && rest[x.key] == x;
          }
        }
      }
      assert contents[k] !in rest.Values;
    } else {
      assert contents == map[];
    }
  }

  // ------------------------------------------------------------------ one entry more or less

  lemma ChainAfter(head: LRUHandle?, s: seq<LRUHandle>, i: nat)
    requires ChainOk(head, s) && i < |s|
    ensures ChainOk(s[i].nextHash, s[i + 1..])
  {
    ChainNext(head, s, i);
    var t := s[i + 1..];
    forall k {:trigger t[k].nextHash} | 0 <= k < |t|
      ensures t[k].nextHash == if k + 1 < |t| then t[k + 1] else null
    {
      assert t[k] == s[i + 1 + k];
    }
  }

  lemma ChainFront(h: LRUHandle, s: seq<LRUHandle>)
    requires ChainOk(h.nextHash, s)
    ensures ChainOk(h, [h] + s)
  {
  }

  lemma HoldsNodes(hashOf: Bytes -> Word, length: nat, chains: seq<seq<LRUHandle>>, contents: map<Bytes, LRUHandle>)
    requires length > 0 && |chains| == length
    requires forall b, i :: 0 <= b < length && 0 <= i < |chains[b]| ==> InBucket(hashOf, length, contents, chains[b][i], b)
    ensures Nodes(chains) <= contents.Values
  {
    forall x | x in Nodes(chains)
      ensures x in contents.Values
    {
      var b, i :| 0 <= b < length && 0 <= i < |chains[b]| && x == chains[b][i];
      assert InBucket(hashOf, length, contents, chains[b][i], b);
      assert x.key in contents && contents[x.key] == x;
    }
  }

  lemma RemoveHolds(hashOf: Bytes -> Word, length: nat, chains: seq<seq<LRUHandle>>, contents: map<Bytes, LRUHandle>, key: Bytes, b: nat, pos: nat)
    requires length > 0 && Holds(hashOf, length, chains, contents) && b < length && pos < |chains[b]| && chains[b][pos].key == key
    ensures Holds(hashOf, length, chains[b := chains[b][..pos] + chains[b][pos + 1..]], contents - {key})
    ensures Nodes(chains[b := chains[b][..pos] + chains[b][pos + 1..]]) <= Nodes(chains)
  {
    hide InBucket, Nodes;
    var s' := chains[b][..pos] + chains[b][pos + 1..];
    RemovePlaces(hashOf, length, chains, contents, key, b, pos, s');
    RemoveFinds(hashOf, length, chains, contents, key, b, pos, s');
    RemoveNodes(chains, b, pos, s');
  }

  lemma RemoveNodes(chains: seq<seq<LRUHandle>>, b: nat, pos: nat, s': seq<LRUHandle>)
    requires b < |chains| && pos < |chains[b]| && s' == chains[b][..pos] + chains[b][pos + 1..]
    ensures Nodes(chains[b := s']) <= Nodes(chains)
  {
    var chains' := chains[b := s'];
    forall c, i | 0 <= c < |chains'| && 0 <= i < |chains'[c]|
      ensures chains'[c][i] in Nodes(chains)
    {
      var j := if c == b && pos <= i then i + 1 else i;
      assert chains'[c][i] == chains[c][j];
    }
  }

  /** The other entries are still found in their buckets. */
  lemma RemoveFinds(hashOf: Bytes -> Word, length: nat, chains: seq<seq<LRUHandle>>, contents: map<Bytes, LRUHandle>, key: Bytes, b: nat, pos: nat, s': seq<LRUHandle>)
    requires length > 0 && Holds(hashOf, length, chains, contents) && b < length && pos < |chains[b]| && chains[b][pos].key == key
    requires s' == chains[b][..pos] + chains[b][pos + 1..]
    ensures forall k :: k in contents - {key} ==> contents[k].key == k && contents[k] in chains[b := s'][hashOf(k) % length]
  {
    hide InBucket;
    var s := chains[b];
    forall k | k in contents && k != key && hashOf(k) % length == b
      ensures contents[k] in s'
    {
      var j :| 0 <= j < |s| && s[j] == contents[k];
      assert s[j] == s'[if j < pos then j else j - 1];
    }
  }

  lemma RemovePlaces(hashOf: Bytes -> Word, length: nat, chains: seq<seq<LRUHandle>>, contents: map<Bytes, LRUHandle>, key: Bytes, b: nat, pos: nat, s': seq<LRUHandle>)
    requires length > 0 && Holds(hashOf, length, chains, contents) && b < length && pos < |chains[b]| && chains[b][pos].key == key
    requires s' == chains[b][..pos] + chains[b][pos + 1..]
    ensures var chains', contents' := chains[b := s'], contents - {key};
            forall c, i :: 0 <= c < length && 0 <= i < |chains'[c]| ==> InBucket(hashOf, length, contents', chains'[c][i], c)
    ensures forall i, j :: 0 <= i < j < |s'| ==> s'[i].key != s'[j].key
  {
    var s, chains', contents' := chains[b], chains[b := s'], contents - {key};
    assert InBucket(hashOf, length, contents, s[pos], b);
    forall c, i | 0 <= c < length && 0 <= i < |chains'[c]|
      ensures InBucket(hashOf, length, contents', chains'[c][i], c)
    {
      if c == b {
        var j := if i < pos then i else i + 1;
        assert s'[i] == s[j] && InBucket(hashOf, length, contents, s[j], b);
      } else {
        assert InBucket(hashOf, length, contents, chains[c][i], c);
      }
    }
  }

  lemma InsertHolds(hashOf: Bytes -> Word, length: nat, chains: seq<seq<LRUHandle>>, contents: map<Bytes, LRUHandle>, h: LRUHandle, b: nat, pos: nat)
    requires length > 0 && Holds(hashOf, length, chains, contents) && b < length && pos <= |chains[b]|
    requires h.hash == hashOf(h.key) && b == h.hash % length
    requires if pos < |chains[b]| then chains[b][pos].key == h.key else h.key !in contents
    ensures var chains', contents' := chains[b := chains[b][..pos] + ([h] + Rest(chains[b], pos))], contents[h.key := h];
            Holds(hashOf, length, chains', contents') && Nodes(chains') <= Nodes(chains) + {h}
  {
    var s := chains[b];
    var s' := s[..pos] + ([h] + Rest(s, pos));
    var chains', contents' := chains[b := s'], contents[h.key := h];
    InsertPlaces(hashOf, length, chains, contents, h, b, pos, s');
    forall k | k in contents'
      ensures contents'[k].key == k && contents'[k] in chains'[hashOf(k) % length]
    {
      if k == h.key {
        assert s'[pos] == h;
      } else if hashOf(k) % length == b {
        var j :| 0 <= j < |s| && s[j] == contents[k];
        assert s'[j] == s[j];
      }
    }
  }

  lemma InsertPlaces(hashOf: Bytes -> Word, length: nat, chains: seq<seq<LRUHandle>>, contents: map<Bytes, LRUHandle>, h: LRUHandle, b: nat, pos: nat, s': seq<LRUHandle>)
    requires length > 0 && Holds(hashOf, length, chains, contents) && b < length && pos <= |chains[b]|
    requires h.hash == hashOf(h.key) && b == h.hash % length
    requires if pos < |chains[b]| then chains[b][pos].key == h.key else h.key !in contents
    requires s' == chains[b][..pos] + ([h] + Rest(chains[b], pos))
    ensures var chains', contents' := chains[b := s'], contents[h.key := h];
            forall c, i :: 0 <= c < length && 0 <= i < |chains'[c]| ==> InBucket(hashOf, length, contents', chains'[c][i], c)
    ensures forall i, j :: 0 <= i < j < |s'| ==> s'[i].key != s'[j].key
  {
    var s, contents', chains' := chains[b], contents[h.key := h], chains[b := s'];
    PutAt(s, h, pos);
    forall i | 0 <= i < |s| && i != pos
      ensures s[i].key != h.key && InBucket(hashOf, length, contents', s[i], b)
    {
      assert InBucket(hashOf, length, contents, s[i], b);
    }
    forall c, i | 0 <= c < length && 0 <= i < |chains'[c]|
      ensures InBucket(hashOf, length, contents', chains'[c][i], c)
    {
      if c == b {
        assert i != pos ==> s'[i] == s[i];
      } else {
        assert InBucket(hashOf, length, contents, chains[c][i], c);
      }
    }
    forall i, j | 0 <= i < j < |s'|
      ensures s'[i].key != s'[j].key
    {
      assert i != pos ==> s'[i] == s[i];
      assert j != pos ==> s'[j] == s[j];
    }
  }

  lemma PutAt(s: seq<LRUHandle>, h: LRUHandle, pos: nat)
    requires pos <= |s|
    ensures var t := s[..pos] + ([h] + Rest(s, pos));
            && |t| == (if pos < |s| then |s| else |s| + 1) && t[pos] == h
            && forall i {:trigger t[i]} :: 0 <= i < |t| && i != pos ==> i < |s| && t[i] == s[i]
  {
  }
}
