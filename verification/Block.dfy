/** Blocks of a table file: block_builder.cc stores sorted pairs with shared key prefixes,
    block.cc reads them back in both directions and by key. */
module Blocks {
  import opened Keys
  import opened Coding

  datatype Pair = Pair(key: Bytes, value: Bytes)

  /** A comparator of stored keys. */
  type Comparator = (Bytes, Bytes) -> bool

  ghost predicate Transitive(less: Comparator) {
    forall a, b, c {:trigger less(a, b), less(b, c)} :: less(a, b) && less(b, c) ==> less(a, c)
  }

  ghost predicate SortedPairs(less: Comparator, ps: seq<Pair>) {
    forall i, j :: 0 <= i < j < |ps| ==> less(ps[i].key, ps[j].key)
  }

  // ------------------------------------------------------------------ one entry

  predicate SharesPrefix(a: Bytes, b: Bytes, n: nat) {
    n <= |a| && n <= |b| && a[..n] == b[..n]
  }

  /** An entry that leaves out the first `shared` bytes of its key. */
  function EntryBytes(shared: nat, p: Pair): (r: Bytes)
    requires shared <= |p.key|
    ensures |r| >= 3
  {
    Varint(shared) + (Varint(|p.key| - shared) + (Varint(|p.value|) + (p.key[shared..] + p.value)))
  }

  /** The three lengths at the front of an entry, and how many bytes they take. */
  datatype Lengths = Lengths(shared: nat, nonShared: nat, valueLength: nat, size: nat)

  /** DecodeEntry; the fast path reads three lengths of one byte each. */
  function DecodeEntry(b: Bytes): (r: Option<Lengths>)
    ensures r.Some? ==> r.value.size + r.value.nonShared + r.value.valueLength <= |b|
  {
    if |b| < 3 then None else
    var l := if b[0] < 128 && b[1] < 128 && b[2] < 128 then Some(Lengths(b[0], b[1], b[2], 3)) else DecodeLengths(b);
    if l.None? || |b| - l.value.size < l.value.nonShared + l.value.valueLength then None else l
  }

  function DecodeLengths(b: Bytes): (r: Option<Lengths>)
    ensures r.Some? ==> r.value.size <= |b|
  {
    var s := GetVarint32(b);
    if s.None? then None else
    var n := GetVarint32(s.value.1);
    if n.None? then None else
    var v := GetVarint32(n.value.1);
    if v.None? then None else
    Some(Lengths(s.value.0, n.value.0, v.value.0, |b| - |v.value.1|))
  }

  /** The fast path reads what the slow one does. */
  lemma FastLengths(b: Bytes)
    requires |b| >= 3 && b[0] < 128 && b[1] < 128 && b[2] < 128
    ensures DecodeLengths(b) == Some(Lengths(b[0], b[1], b[2], 3))
  {
  }

  lemma LengthsRoundTrip(shared: nat, nonShared: nat, valueLength: nat, tail: Bytes)
    requires shared < WORD && nonShared < WORD && valueLength < WORD
    ensures var head := Varint(shared) + (Varint(nonShared) + (Varint(valueLength) + tail));
            DecodeLengths(head) == Some(Lengths(shared, nonShared, valueLength, |head| - |tail|))
  {
    hide Varint, GetVarint32;
    var last := Varint(valueLength) + tail;
    var rest := Varint(nonShared) + last;
    Get32(shared, rest);
    Get32(nonShared, last);
    Get32(valueLength, tail);
  }

  lemma TailSlices(b: Bytes, x: Bytes, y: Bytes, tail: Bytes, size: nat)
    requires size + |x| + |y| + |tail| == |b| && b[size..] == x + y + tail
    ensures b[size..size + |x|] == x && b[size + |x|..size + |x| + |y|] == y
  {
    var rest := b[size..];
    assert rest == x + (y + tail);
    assert b[size..size + |x|] == rest[..|x|] == x;
    assert b[size + |x|..] == rest[|x|..] == y + tail;
    assert b[size + |x|..size + |x| + |y|] == (y + tail)[..|y|] == y;
  }

  /** The size of the three lengths of an entry. */
  function HeadSize(shared: nat, p: Pair): (n: nat)
    requires shared <= |p.key|
    ensures n + (|p.key| - shared) + |p.value| == |EntryBytes(shared, p)|
  {
    |Varint(shared)| + |Varint(|p.key| - shared)| + |Varint(|p.value|)|
  }

  lemma DecodeByLengths(b: Bytes, l: Lengths)
    requires |b| >= 3 && DecodeLengths(b) == Some(l) && l.size + l.nonShared + l.valueLength <= |b|
    ensures DecodeEntry(b) == Some(l)
  {
    hide DecodeLengths;
    if b[0] < 128 && b[1] < 128 && b[2] < 128 {
      FastLengths(b);
    }
  }

  /** The front of `b` decodes to the lengths, the rest of the key and the value of the pair. */
  ghost predicate Decodes(b: Bytes, shared: nat, p: Pair)
    requires shared <= |p.key|
  {
    var size, n, v := HeadSize(shared, p), |p.key| - shared, |p.value|;
    && size + n + v <= |b|
    && DecodeEntry(b) == Some(Lengths(shared, n, v, size))
    && b[size..size + n] == p.key[shared..] && b[size + n..size + n + v] == p.value
  }

  /** An entry is decoded, whatever follows it. */
  lemma EntryRoundTrip(shared: nat, p: Pair, tail: Bytes)
    requires shared <= |p.key| && |p.key| < WORD && |p.value| < WORD
    ensures Decodes(EntryBytes(shared, p) + tail, shared, p)
  {
    hide DecodeLengths, EntryBytes, DecodeEntry, HeadSize, Varint;
    var x, y, b := p.key[shared..], p.value, EntryBytes(shared, p) + tail;
    EntryLengths(shared, p, tail);
    EntryTail(shared, p, tail);
    TailSlices(b, x, y, tail, HeadSize(shared, p));
    DecodeByLengths(b, Lengths(shared, |x|, |y|, HeadSize(shared, p)));
  }

  lemma EntryLengths(shared: nat, p: Pair, tail: Bytes)
    requires shared <= |p.key| && |p.key| < WORD && |p.value| < WORD
    ensures DecodeLengths(EntryBytes(shared, p) + tail) ==
            Some(Lengths(shared, |p.key| - shared, |p.value|, HeadSize(shared, p)))
  {
    hide *;
    EntryTail(shared, p, tail);
    LengthsRoundTrip(shared, |p.key| - shared, |p.value|, p.key[shared..] + p.value + tail);
  }

  lemma EntryTail(shared: nat, p: Pair, tail: Bytes)
    requires shared <= |p.key|
    ensures var rest := p.key[shared..] + p.value + tail;
            var b := EntryBytes(shared, p) + tail;
            && b == Varint(shared) + (Varint(|p.key| - shared) + (Varint(|p.value|) + rest))
            && |b| - |rest| == HeadSize(shared, p) && b[HeadSize(shared, p)..] == rest
  {
    hide Varint;
  }

  // ------------------------------------------------------------------ the contents of a block

  /** A block seen from outside: its pairs, the prefix each key shares with the one
      before, where each entry starts (and the last one ends), and which entries are
      restart points. */
  datatype Shape = Shape(pairs: seq<Pair>, shared: seq<nat>, offsets: seq<nat>, restarts: seq<nat>)

  ghost predicate ShapeOk(s: Shape) {
    && |s.shared| == |s.pairs| && |s.offsets| == |s.pairs| + 1 && s.offsets[0] == 0
    && (forall i :: 0 <= i < |s.pairs| ==>
          && s.shared[i] <= |s.pairs[i].key| && |s.pairs[i].key| < WORD && |s.pairs[i].value| < WORD
          && s.offsets[i + 1] == s.offsets[i] + |EntryBytes(s.shared[i], s.pairs[i])|)
    && (forall i :: 0 < i < |s.pairs| ==> SharesPrefix(s.pairs[i - 1].key, s.pairs[i].key, s.shared[i]))
    && RestartsOk(s)
  }

  /** The first entry is a restart point; restart points follow one another and store
      their whole key.  An empty block has one restart point, where an entry would be. */
  ghost predicate RestartsOk(s: Shape) {
    && s.restarts != [] && s.restarts[0] == 0
    && (forall j :: 0 <= j < |s.restarts| ==> s.restarts[j] < |s.pairs| || (j == 0 && s.pairs == []))
    && (forall j, k :: 0 <= j < k < |s.restarts| ==> s.restarts[j] < s.restarts[k])
    && (forall j :: 0 <= j < |s.restarts| && s.restarts[j] < |s.shared| ==> s.shared[s.restarts[j]] == 0)
  }

  /** The bytes of the first n entries. */
  function EntriesBytes(s: Shape, n: nat): Bytes
    requires n <= |s.pairs| == |s.shared| && forall i :: 0 <= i < n ==> s.shared[i] <= |s.pairs[i].key|
  {
    if n == 0 then [] else EntriesBytes(s, n - 1) + EntryBytes(s.shared[n - 1], s.pairs[n - 1])
  }

  lemma {:induction false} EntriesEnd(s: Shape, n: nat)
    requires ShapeOk(s) && n <= |s.pairs|
    ensures |EntriesBytes(s, n)| == s.offsets[n]
  {
    hide EntryBytes;
    if n > 0 {
      EntriesEnd(s, n - 1);
      assert s.offsets[n - 1 + 1] == s.offsets[n - 1] + |EntryBytes(s.shared[n - 1], s.pairs[n - 1])|;
    }
  }

  /** Each entry lies where its offset says. */
  lemma {:induction false} EntryAt(s: Shape, n: nat, i: nat)
    requires ShapeOk(s) && i < n <= |s.pairs|
    ensures s.offsets[i] <= s.offsets[i + 1] <= |EntriesBytes(s, n)|
    ensures EntriesBytes(s, n)[s.offsets[i]..s.offsets[i + 1]] == EntryBytes(s.shared[i], s.pairs[i])
    decreases n
  {
    hide EntryBytes;
    EntriesEnd(s, n - 1);
    EntriesEnd(s, n);
    if i < n - 1 {
      EntryAt(s, n - 1, i);
      var front := EntriesBytes(s, n - 1);
      assert EntriesBytes(s, n)[..|front|] == front;
      assert EntriesBytes(s, n)[s.offsets[i]..s.offsets[i + 1]] == front[s.offsets[i]..s.offsets[i + 1]];
    } else {
      assert EntriesBytes(s, n)[s.offsets[i]..] == EntryBytes(s.shared[i], s.pairs[i]);
    }
  }

  lemma {:induction false} OffsetsGrow(s: Shape, i: nat, j: nat)
    requires ShapeOk(s) && i < j <= |s.pairs|
    ensures s.offsets[i] < s.offsets[j]
    decreases j
  {
    hide EntryBytes;
    assert s.offsets[j - 1 + 1] == s.offsets[j - 1] + |EntryBytes(s.shared[j - 1], s.pairs[j - 1])|;
    if i < j - 1 {
      OffsetsGrow(s, i, j - 1);
    }
  }

  /** The restart array. */
  function Fixed32s(ns: seq<nat>): (r: Bytes)
    ensures |r| == 4 * |ns|
  {
    if ns == [] then [] else Fixed32s(ns[..|ns| - 1]) + Fixed(ns[|ns| - 1], 4)
  }

  lemma {:induction false} Fixed32At(ns: seq<nat>, i: nat)
    requires i < |ns| && ns[i] < WORD
    ensures FromFixed(Fixed32s(ns)[4 * i..4 * i + 4]) == ns[i]
    decreases |ns|
  {
    var n := |ns| - 1;
    var front := Fixed32s(ns[..n]);
    if i < n {
      Fixed32At(ns[..n], i);
      assert Fixed32s(ns)[4 * i..4 * i + 4] == front[4 * i..4 * i + 4];
    } else {
      assert Fixed32s(ns)[4 * i..4 * i + 4] == Fixed(ns[n], 4);
      assert EncodeFixed32(ns[n]) == Fixed(ns[n], 4);
    }
  }

  function RestartOffsets(s: Shape): (r: seq<nat>)
    requires forall j :: 0 <= j < |s.restarts| ==> s.restarts[j] < |s.offsets|
    ensures |r| == |s.restarts| && forall j :: 0 <= j < |r| ==> r[j] == s.offsets[s.restarts[j]]
  {
    seq(|s.restarts|, j requires 0 <= j < |s.restarts| => s.offsets[s.restarts[j]])
  }

  /** The bytes of the whole block. */
  ghost predicate BlockOf(data: Bytes, s: Shape) {
    && ShapeOk(s) && |data| < WORD
    && (forall j :: 0 <= j < |s.restarts| ==> s.restarts[j] < |s.offsets|)
    && data == EntriesBytes(s, |s.pairs|) + Fixed32s(RestartOffsets(s)) + Fixed(|s.restarts|, 4)
  }

  // ------------------------------------------------------------------ building a block

  const EMPTY_SHAPE := Shape([], [], [0], [0])

  /** One more pair, which becomes a restart point or not. */
  function Appended(s: Shape, p: Pair, shared: nat, restart: bool): Shape
    requires shared <= |p.key| && s.offsets != []
  {
    Shape(s.pairs + [p], s.shared + [shared], s.offsets + [s.offsets[|s.offsets| - 1] + |EntryBytes(shared, p)|],
          if restart then s.restarts + [|s.pairs|] else s.restarts)
  }

  ghost predicate MayAppend(s: Shape, p: Pair, shared: nat, restart: bool) {
    && shared <= |p.key| && |p.key| < WORD && |p.value| < WORD
    && (s.pairs == [] ==> shared == 0 && !restart)
    && (s.pairs != [] ==> SharesPrefix(s.pairs[|s.pairs| - 1].key, p.key, shared))
    && (restart ==> shared == 0)
  }

  lemma AppendRestarts(s: Shape, p: Pair, shared: nat, restart: bool)
    requires ShapeOk(s) && MayAppend(s, p, shared, restart)
    ensures RestartsOk(Appended(s, p, shared, restart))
  {
    hide EntryBytes, SharesPrefix;
  }

  lemma AppendOk(s: Shape, p: Pair, shared: nat, restart: bool)
    requires ShapeOk(s) && MayAppend(s, p, shared, restart)
    ensures ShapeOk(Appended(s, p, shared, restart))
    ensures EntriesBytes(Appended(s, p, shared, restart), |s.pairs| + 1) == EntriesBytes(s, |s.pairs|) + EntryBytes(shared, p)
  {
    hide RestartsOk, EntryBytes, SharesPrefix, MayAppend;
    AppendRestarts(s, p, shared, restart);
    AppendPairs(s, p, shared, restart);
    AppendShares(s, p, shared, restart);
    SamePrefixBytes(s, Appended(s, p, shared, restart), |s.pairs|);
  }

  lemma AppendShares(s: Shape, p: Pair, shared: nat, restart: bool)
    requires ShapeOk(s) && MayAppend(s, p, shared, restart)
    ensures shared <= |p.key|
    ensures var t := Appended(s, p, shared, restart);
            forall i :: 0 < i < |t.pairs| ==> SharesPrefix(t.pairs[i - 1].key, t.pairs[i].key, t.shared[i])
  {
    hide RestartsOk, EntryBytes, SharesPrefix;
  }

  lemma AppendPairs(s: Shape, p: Pair, shared: nat, restart: bool)
    requires ShapeOk(s) && MayAppend(s, p, shared, restart)
    ensures var t := Appended(s, p, shared, restart);
            forall i :: 0 <= i < |t.pairs| ==>
              && t.shared[i] <= |t.pairs[i].key| && |t.pairs[i].key| < WORD && |t.pairs[i].value| < WORD
              && t.offsets[i + 1] == t.offsets[i] + |EntryBytes(t.shared[i], t.pairs[i])|
  {
    hide RestartsOk, EntryBytes, SharesPrefix;
  }

  lemma {:induction false} SamePrefixBytes(s: Shape, t: Shape, n: nat)
    requires n <= |s.pairs| == |s.shared| && s.pairs <= t.pairs && s.shared <= t.shared && |t.pairs| == |t.shared|
    requires forall i :: 0 <= i < n ==> s.shared[i] <= |s.pairs[i].key|
    requires forall i :: 0 <= i < n ==> t.shared[i] <= |t.pairs[i].key|
    ensures EntriesBytes(t, n) == EntriesBytes(s, n)
  {
    hide EntryBytes;
    if n > 0 {
      SamePrefixBytes(s, t, n - 1);
    }
  }

  class BlockBuilder {
    const restartInterval: nat
    var buffer: Bytes
    var restarts: seq<nat>
    var counter: nat             // entries since the last restart point
    var lastKey: Bytes
    ghost var shape: Shape

    ghost predicate Ok()
      reads this
    {
      && restartInterval >= 1 && counter <= restartInterval && (counter == 0 <==> shape.pairs == [])
      && ShapeOk(shape) && buffer == EntriesBytes(shape, |shape.pairs|)
      && (forall j :: 0 <= j < |shape.restarts| ==> shape.restarts[j] < |shape.offsets|)
      && restarts == RestartOffsets(shape)
      && lastKey == if shape.pairs == [] then [] else shape.pairs[|shape.pairs| - 1].key
    }

    constructor (restartInterval: nat)
      requires restartInterval >= 1
      ensures Ok() && shape.pairs == [] && this.restartInterval == restartInterval
    {
      this.restartInterval := restartInterval;
      buffer, restarts, counter, lastKey, shape := [], [0], 0, [], EMPTY_SHAPE;
    }

    /** Adds a pair, with its key cut short by what it shares with the last one unless a
        restart point is due. */
    method Add(key: Bytes, value: Bytes)
      requires Ok() && |key| < WORD && |value| < WORD
      modifies this
      ensures Ok() && shape.pairs == old(shape.pairs) + [Pair(key, value)]
    {
      hide ShapeOk, EntryBytes, EntriesBytes, RestartOffsets, SharesPrefix, Appended;
      var shared, restart := 0, counter >= restartInterval;
      if !restart {
        shared := CommonPrefix(lastKey, key);
      }
      ghost var p := Pair(key, value);
      NotEmptyShape(shape);
      NothingShared(lastKey, key);
      AppendParts(shape, p, shared, restart);
      if restart {
        restarts := restarts + [|buffer|];
        counter := 0;
      }
      buffer := buffer + EntryBytes(shared, Pair(key, value));
      shape := Appended(shape, p, shared, restart);
      lastKey := key;
      counter := counter + 1;
    }

    /** BlockBuilder::CurrentSizeEstimate: the size of the finished block. */
    function CurrentSizeEstimate(): nat
      reads this
    {
      |buffer| + 4 * |restarts| + 4
    }

    lemma SizeBound()
      requires Ok()
      ensures CurrentSizeEstimate() <= Weight(shape.pairs)
    {
      hide ShapeOk, EntriesBytes, Weight;
      BlockWeighs(shape);
    }

    predicate Empty()
      reads this`buffer
    {
      buffer == []
    }

    lemma EmptyIff()
      requires Ok()
      ensures Empty() <==> shape.pairs == []
    {
    }

    method Reset()
      requires Ok()
      modifies this
      ensures Ok() && shape.pairs == []
    {
      buffer, restarts, counter, lastKey, shape := [], [0], 0, [], EMPTY_SHAPE;
    }

    /** The entries, the restart array and its length. */
    method Finish() returns (data: Bytes)
      requires Ok() && CurrentSizeEstimate() < WORD
      ensures BlockOf(data, shape) && |data| == CurrentSizeEstimate()
    {
      hide ShapeOk, EntriesBytes;
      data := buffer;
      for i := 0 to |restarts|
        invariant data == buffer + Fixed32s(restarts[..i])
      {
        assert restarts[..i + 1][..i] == restarts[..i];
        data := data + Fixed(restarts[i], 4);
      }
      assert restarts[..|restarts|] == restarts;
      data := data + Fixed(|restarts|, 4);
    }
  }

  lemma NotEmptyShape(s: Shape)
    requires ShapeOk(s)
    ensures s.offsets != [] && |s.offsets| == |s.pairs| + 1
  {
  }

  lemma AppendRestartOffsets(s: Shape, p: Pair, shared: nat, restart: bool)
    requires ShapeOk(s) && MayAppend(s, p, shared, restart)
    ensures var t := Appended(s, p, shared, restart);
            && (forall j :: 0 <= j < |s.restarts| ==> s.restarts[j] < |s.offsets|)
            && (forall j :: 0 <= j < |t.restarts| ==> t.restarts[j] < |t.offsets|)
            && RestartOffsets(t) == RestartOffsets(s) + if restart then [|EntriesBytes(s, |s.pairs|)|] else []
  {
    hide EntryBytes, EntriesBytes, SharesPrefix;
    EntriesEnd(s, |s.pairs|);
  }

  lemma NothingShared(a: Bytes, b: Bytes)
    ensures SharesPrefix(a, b, 0)
  {
  }

  /** What the builder's fields become. */
  lemma AppendParts(s: Shape, p: Pair, shared: nat, restart: bool)
    requires ShapeOk(s) && MayAppend(s, p, shared, restart)
    requires forall j :: 0 <= j < |s.restarts| ==> s.restarts[j] < |s.offsets|
    ensures s.offsets != []
    ensures var t := Appended(s, p, shared, restart);
            && ShapeOk(t) && t.pairs == s.pairs + [p] && |t.pairs| == |s.pairs| + 1 && t.pairs[|t.pairs| - 1] == p
            && (forall j :: 0 <= j < |t.restarts| ==> t.restarts[j] < |t.offsets|)
            && EntriesBytes(t, |t.pairs|) == EntriesBytes(s, |s.pairs|) + EntryBytes(shared, p)
            && RestartOffsets(t) == RestartOffsets(s) + if restart then [|EntriesBytes(s, |s.pairs|)|] else []
  {
    hide EntryBytes, EntriesBytes, RestartOffsets, SharesPrefix;
    AppendOk(s, p, shared, restart);
    AppendRestartOffsets(s, p, shared, restart);
  }

  /** How many bytes two keys share at the front. */
  method CommonPrefix(a: Bytes, b: Bytes) returns (n: nat)
    ensures SharesPrefix(a, b, n) && (n < |a| && n < |b| ==> a[n] != b[n])
  {
    n := 0;
    while n < |a| && n < |b| && a[n] == b[n]
      invariant SharesPrefix(a, b, n)
    {
      n := n + 1;
    }
  }

  // ------------------------------------------------------------------ reading a block

  /** Where the restart array of a block begins. */
  ghost function RestartOffset(s: Shape): nat
    requires ShapeOk(s)
  {
    s.offsets[|s.pairs|]
  }

  /** The last four bytes tell how many restart points there are. */
  lemma RestartCount(data: Bytes, s: Shape)
    requires BlockOf(data, s)
    ensures |data| == RestartOffset(s) + 4 * |s.restarts| + 4
    ensures FromFixed(data[|data| - 4..]) == |s.restarts|
  {
    EntriesEnd(s, |s.pairs|);
    hide EntriesBytes, Fixed32s, ShapeOk;
    assert data[|data| - 4..] == Fixed(|s.restarts|, 4);
    assert EncodeFixed32(|s.restarts|) == Fixed(|s.restarts|, 4);
  }

  /** The four-byte number at a place, or 0 past the end. */
  function Fixed32In(data: Bytes, at: nat): nat {
    if at + 4 <= |data| then FromFixed(data[at..at + 4]) else 0
  }

  lemma RestartAt(data: Bytes, s: Shape, j: nat, offset: nat)
    requires BlockOf(data, s) && j < |s.restarts| && offset == s.offsets[s.restarts[j]]
    ensures Fixed32In(data, RestartOffset(s) + 4 * j) == offset
  {
    hide *;
    RestartParts(data, s, j);
    var es, rs, last := EntriesBytes(s, |s.pairs|), RestartOffsets(s), Fixed(|s.restarts|, 4);
    RestartIn(es, rs, last, j);
  }

  lemma RestartIn(es: Bytes, rs: seq<nat>, last: Bytes, j: nat)
    requires j < |rs| && rs[j] < WORD
    ensures Fixed32In(es + Fixed32s(rs) + last, |es| + 4 * j) == rs[j]
  {
    hide *;
    Fixed32At(rs, j);
    SliceIn(es, Fixed32s(rs), last, 4 * j);
  }

  lemma SliceIn(a: Bytes, b: Bytes, c: Bytes, i: nat)
    requires i + 4 <= |b|
    ensures Fixed32In(a + b + c, |a| + i) == FromFixed(b[i..i + 4])
  {
    hide FromFixed;
    InMiddle(a, b, c, i, 4);
  }

  lemma RestartParts(data: Bytes, s: Shape, j: nat)
    requires BlockOf(data, s) && j < |s.restarts|
    ensures |s.pairs| == |s.shared| && forall i :: 0 <= i < |s.pairs| ==> s.shared[i] <= |s.pairs[i].key|
    ensures forall j :: 0 <= j < |s.restarts| ==> s.restarts[j] < |s.offsets|
    ensures data == EntriesBytes(s, |s.pairs|) + Fixed32s(RestartOffsets(s)) + Fixed(|s.restarts|, 4)
    ensures |EntriesBytes(s, |s.pairs|)| == RestartOffset(s) && RestartOffset(s) + 4 * j + 4 <= |data|
    ensures s.offsets[s.restarts[j]] < WORD
  {
    RestartCount(data, s);
    EntriesEnd(s, |s.pairs|);
    OffsetOrder(s, s.restarts[j], |s.pairs|);
    hide EntriesBytes, Fixed32s, Fixed, EntryBytes, RestartsOk, SharesPrefix;
  }

  lemma InMiddle(a: Bytes, b: Bytes, c: Bytes, i: nat, n: nat)
    requires i + n <= |b|
    ensures (a + b + c)[|a| + i..|a| + i + n] == b[i..i + n]
  {
  }

  /** The bytes from an entry to the restart array start with the entry. */
  lemma EntryInData(data: Bytes, s: Shape, i: nat) returns (tail: Bytes)
    requires BlockOf(data, s) && i < |s.pairs|
    ensures s.offsets[i] < s.offsets[i + 1] <= RestartOffset(s) <= |data|
    ensures data[s.offsets[i]..RestartOffset(s)] == EntryBytes(s.shared[i], s.pairs[i]) + tail
  {
    hide EntriesBytes, Fixed32s, Fixed, EntryBytes;
    RestartCount(data, s);
    EntriesEnd(s, |s.pairs|);
    EntryAt(s, |s.pairs|, i);
    OffsetsGrow(s, i, i + 1);
    var es := EntriesBytes(s, |s.pairs|);
    assert data[..|es|] == es;
    tail := es[s.offsets[i + 1]..];
    assert data[s.offsets[i]..|es|] == es[s.offsets[i]..s.offsets[i + 1]] + tail;
  }

  /** The reader is about to parse the i-th entry: `key` begins with what it shares. */
  ghost predicate Ready(s: Shape, i: nat, key: Bytes, valueEnd: nat, restartIndex: nat) {
    && ShapeOk(s) && i <= |s.pairs| && valueEnd == s.offsets[i]
    && restartIndex < |s.restarts| && s.restarts[restartIndex] <= i
    && (i < |s.pairs| ==> SharesPrefix(key, s.pairs[i].key, s.shared[i]))
  }

  /** The restart point is the last one before the entry, or at it. */
  ghost predicate Around(s: Shape, restartIndex: nat, i: nat) {
    && restartIndex < |s.restarts| && s.restarts[restartIndex] <= i
    && (restartIndex + 1 < |s.restarts| ==> i <= s.restarts[restartIndex + 1])
  }

  /** Refines a cursor over the pairs of the block: `pos` is the abstract position, and
      the number of pairs is its one invalid value. */
  class BlockIter {
    const less: Comparator
    const data: Bytes
    const restarts: nat           // where the restart array begins
    const numRestarts: nat
    ghost const shape: Shape
    var current: nat
    var restartIndex: nat
    var key: Bytes
    var value: Bytes
    var valueEnd: nat             // where the current value ends
    var corrupt: bool
    ghost var pos: nat

    ghost predicate Base() {
      BlockOf(data, shape) && restarts == RestartOffset(shape) && numRestarts == |shape.restarts|
    }

    ghost predicate Ok()
      reads this
    {
      && Base() && !corrupt && pos <= |shape.pairs| && (pos == |shape.pairs| ==> current == restarts)
      && (pos < |shape.pairs| ==>
            && current == shape.offsets[pos] && valueEnd == shape.offsets[pos + 1]
            && Pair(key, value) == shape.pairs[pos] && Around(shape, restartIndex, pos))
    }

    /** Block::Block and NewIterator: finds the restart array from the end of the block. */
    constructor (less: Comparator, data: Bytes, ghost shape: Shape)
      requires BlockOf(data, shape)
      ensures Ok() && pos == |shape.pairs| && this.shape == shape && this.less == less
    {
      RestartCount(data, shape);
      var n := FromFixed(data[|data| - 4..]);
      this.less, this.data, this.shape := less, data, shape;
      numRestarts, restarts := n, |data| - (1 + n) * 4;
      current, restartIndex, key, value, valueEnd, corrupt := |data| - (1 + n) * 4, n, [], [], 0, false;
      pos := |shape.pairs|;
    }

    predicate Valid()
      reads this
    {
      current < restarts
    }

    lemma ValidIff()
      requires Ok()
      ensures Valid() <==> pos < |shape.pairs|
    {
      if pos < |shape.pairs| {
        OffsetsGrow(shape, pos, |shape.pairs|);
      }
    }

    function GetRestartPoint(j: nat): (r: nat)
      requires Base() && j < numRestarts
      ensures r == shape.offsets[shape.restarts[j]]
    {
      RestartAt(data, shape, j, shape.offsets[shape.restarts[j]]);
      Fixed32In(data, restarts + 4 * j)
    }

    method SeekToRestartPoint(j: nat)
      requires Base() && j < numRestarts
      modifies this`key, this`restartIndex, this`value, this`valueEnd
      ensures Ready(shape, shape.restarts[j], key, valueEnd, restartIndex)
    {
      key, restartIndex := [], j;
      value, valueEnd := [], GetRestartPoint(j);
    }

    method MakeInvalid()
      requires Base() && !corrupt
      modifies this`current, this`restartIndex, this`pos
      ensures Ok() && pos == |shape.pairs|
    {
      current, restartIndex, pos := restarts, numRestarts, |shape.pairs|;
    }

    /** Parses the entry that starts where the last value ended; false at the end. */
    method ParseNextKey(ghost i: nat) returns (more: bool)
      requires Base() && !corrupt && Ready(shape, i, key, valueEnd, restartIndex)
      modifies this
      ensures Ok() && pos == i && (more <==> i < |shape.pairs|)
    {
      hide BlockOf, ShapeOk, RestartOffset, EntryBytes, SharesPrefix;
      OffsetBelow(shape, i);
      current := valueEnd;
      if current >= restarts {
        MakeInvalid();
        return false;
      }
      var entry := ReadEntry(i);
      key, value, valueEnd := entry.key, entry.value, current + entry.size;
      pos := i;
      AdvanceRestart();
      return true;
    }

    method ReadEntry(ghost i: nat) returns (entry: Decoded)
      requires Base() && Ready(shape, i, key, current, restartIndex) && i < |shape.pairs|
      ensures Pair(entry.key, entry.value) == shape.pairs[i] && |shape.offsets| == |shape.pairs| + 1
      ensures current + entry.size == shape.offsets[i + 1]
    {
      hide BlockOf, ShapeOk, RestartOffset, EntryBytes, SharesPrefix;
      ghost var tail := EntryInData(data, shape, i);
      EntryParts(shape, i);
      DecodeIntoOk(data[current..restarts], key, shape.shared[i], shape.pairs[i], tail);
      entry := DecodeInto(data[current..restarts], key).value;
    }

    /** Moves on to the last restart point before the current entry. */
    method AdvanceRestart()
      requires Base() && pos < |shape.pairs| && current == shape.offsets[pos]
      requires restartIndex < numRestarts && shape.restarts[restartIndex] <= pos
      modifies this`restartIndex
      ensures Around(shape, restartIndex, pos)
    {
      RestartsOrder(shape, pos);
      hide BlockOf, RestartOffset;
      while restartIndex + 1 < numRestarts && GetRestartPoint(restartIndex + 1) < current
        invariant restartIndex < numRestarts && shape.restarts[restartIndex] <= pos
        decreases numRestarts - restartIndex
      {
        restartIndex := restartIndex + 1;
      }
    }

    method Next()
      requires Ok() && Valid()
      modifies this
      ensures Ok() && pos == old(pos) + 1
    {
      hide BlockOf, ShapeOk, RestartOffset, EntryBytes, SharesPrefix;
      ValidIff();
      BaseParts();
      NextReady(shape, pos, key, restartIndex);
      var more := ParseNextKey(pos + 1);
    }

    /** Goes back to the restart point before the current entry and forward from there. */
    method Prev()
      requires Ok() && Valid()
      modifies this
      ensures Ok() && pos == if old(pos) == 0 then |shape.pairs| else old(pos) - 1
    {
      hide BlockOf, ShapeOk, RestartOffset, EntryBytes, SharesPrefix;
      ValidIff();
      var original := current;
      ghost var from := pos;
      BaseParts();
      RestartsOrder(shape, from);
      RestartsGrow(shape);
      while GetRestartPoint(restartIndex) >= original
        invariant Base() && !corrupt && pos == from && Around(shape, restartIndex, from)
        invariant restartIndex < numRestarts
        decreases restartIndex
      {
        if restartIndex == 0 {
          // no more entries
          MakeInvalid();
          return;
        }
        restartIndex := restartIndex - 1;
      }
      ghost var i := shape.restarts[restartIndex];
      SeekToRestartPoint(restartIndex);
      var more := ParseNextKey(i);
      OffsetsBefore(shape, from);
      while more && valueEnd < original
        invariant Ok() && i < from && pos == i && more
        decreases from - i
      {
        i := i + 1;
        NextReady(shape, pos, key, restartIndex);
        more := ParseNextKey(i);
      }
    }

    lemma BaseParts()
      requires Base()
      ensures ShapeOk(shape) && numRestarts == |shape.restarts| && numRestarts > 0 && shape.restarts[0] == 0
    {
    }

    method SeekToFirst()
      requires Ok()
      modifies this
      ensures Ok() && pos == 0
    {
      hide BlockOf, ShapeOk, RestartOffset, EntryBytes, SharesPrefix;
      BaseParts();
      SeekToRestartPoint(0);
      var more := ParseNextKey(0);
    }

    method SeekToLast()
      requires Ok()
      modifies this
      ensures Ok() && pos == if shape.pairs == [] then 0 else |shape.pairs| - 1
    {
      hide BlockOf, ShapeOk, RestartOffset, EntryBytes, SharesPrefix;
      BaseParts();
      RestartsWithin(shape);
      ghost var i := shape.restarts[numRestarts - 1];
      SeekToRestartPoint(numRestarts - 1);
      var more := ParseNextKey(i);
      EndOffsets(shape);
      while more && valueEnd < restarts
        invariant Ok() && pos == i && (more <==> i < |shape.pairs|)
        invariant shape.pairs != [] ==> more
        decreases |shape.pairs| - i
      {
        i := i + 1;
        NextReady(shape, pos, key, restartIndex);
        more := ParseNextKey(i);
      }
    }

    /** Binary search over the restart points for the last one before the target, then a
        linear search; ends at the first pair at or after the target. */
    method Seek(target: Bytes)
      requires Ok() && Transitive(less) && SortedPairs(less, shape.pairs)
      modifies this
      ensures Ok()
      ensures forall i :: 0 <= i < pos ==> less(shape.pairs[i].key, target)
      ensures pos < |shape.pairs| ==> !less(shape.pairs[pos].key, target)
    {
      hide BlockOf, ShapeOk, RestartOffset, EntryBytes, SharesPrefix, SortedPairs, Transitive;
      BaseParts();
      RestartsWithin(shape);
      var left := FindRestart(target);
      ghost var i := shape.restarts[left];
      SeekToRestartPoint(left);
      KeysBefore(less, shape.pairs, i, target);
      while true
        invariant Base() && !corrupt && Ready(shape, i, key, valueEnd, restartIndex)
        invariant forall j :: 0 <= j < i ==> less(shape.pairs[j].key, target)
        decreases |shape.pairs| - i
      {
        var more := ParseNextKey(i);
        if !more {
          return;
        }
        if !less(key, target) {
          return;
        }
        PairAt(i);
        NextReady(shape, i, key, restartIndex);
        i := i + 1;
      }
    }

    lemma PosAtMost()
      requires Ok()
      ensures pos <= |shape.pairs|
    {
    }

    lemma PairAt(i: nat)
      requires Ok() && pos == i < |shape.pairs|
      ensures Pair(key, value) == shape.pairs[i] && valueEnd == shape.offsets[i + 1]
    {
    }

    /** The last restart point with a key before the target, or the first one. */
    method FindRestart(target: Bytes) returns (left: nat)
      requires Base()
      ensures left < numRestarts
      ensures left == 0 || (shape.restarts[left] < |shape.pairs| && less(shape.pairs[shape.restarts[left]].key, target))
    {
      hide BlockOf, ShapeOk, RestartOffset, EntryBytes, SharesPrefix;
      BaseParts();
      RestartsWithin(shape);
      left := 0;
      var right := numRestarts - 1;
      while left < right
        invariant left <= right < numRestarts
        invariant left == 0 || (shape.restarts[left] < |shape.pairs| && less(shape.pairs[shape.restarts[left]].key, target))
      {
        var mid := (left + right + 1) / 2;
        var offset := GetRestartPoint(mid);
        ghost var i := shape.restarts[mid];
        RestartEntry(shape, mid);
        ghost var tail := EntryInData(data, shape, i);
        DecodeIntoOk(data[offset..restarts], [], 0, shape.pairs[i], tail);
        var entry := DecodeInto(data[offset..restarts], []).value;
        if less(entry.key, target) {
          left := mid;
        } else {
          right := mid - 1;
        }
      }
    }
  }

  /** After an entry the reader is ready for the next one. */
  lemma NextReady(s: Shape, i: nat, key: Bytes, restartIndex: nat)
    requires ShapeOk(s) && i < |s.pairs| && key == s.pairs[i].key && restartIndex < |s.restarts| && s.restarts[restartIndex] <= i
    ensures Ready(s, i + 1, key, s.offsets[i + 1], restartIndex)
  {
    hide EntryBytes, SharesPrefix;
    assert i + 1 < |s.pairs| ==> SharesPrefix(s.pairs[i + 1 - 1].key, s.pairs[i + 1].key, s.shared[i + 1]);
  }

  lemma RestartsGrow(s: Shape)
    requires ShapeOk(s)
    ensures forall j, k :: 0 <= j < k < |s.restarts| ==> s.restarts[j] < s.restarts[k]
  {
  }

  lemma RestartsWithin(s: Shape)
    requires ShapeOk(s)
    ensures |s.offsets| == |s.pairs| + 1
    ensures forall j :: 0 <= j < |s.restarts| ==> s.restarts[j] <= |s.pairs| && (s.pairs != [] ==> s.restarts[j] < |s.pairs|)
    ensures forall j :: 0 < j < |s.restarts| ==> s.restarts[j] < |s.pairs|
  {
  }

  /** A restart point after the first stores the whole key of its entry. */
  lemma RestartEntry(s: Shape, j: nat)
    requires ShapeOk(s) && 0 < j < |s.restarts|
    ensures s.restarts[j] < |s.pairs| == |s.shared| && s.shared[s.restarts[j]] == 0
    ensures |s.pairs[s.restarts[j]].key| < WORD && |s.pairs[s.restarts[j]].value| < WORD
    ensures SharesPrefix([], s.pairs[s.restarts[j]].key, 0)
  {
    hide EntryBytes;
  }

  lemma OffsetsBefore(s: Shape, n: nat)
    requires ShapeOk(s) && n < |s.pairs|
    ensures |s.offsets| == |s.pairs| + 1
    ensures forall i :: 0 <= i <= n ==> (s.offsets[i] < s.offsets[n] <==> i < n)
  {
    forall i | 0 <= i <= n
      ensures s.offsets[i] < s.offsets[n] <==> i < n
    {
      OffsetOrder(s, i, n);
    }
  }

  lemma EndOffsets(s: Shape)
    requires ShapeOk(s)
    ensures |s.offsets| == |s.pairs| + 1
    ensures forall i :: 0 <= i <= |s.pairs| ==> (s.offsets[i] < RestartOffset(s) <==> i < |s.pairs|)
  {
    forall i | 0 <= i <= |s.pairs|
      ensures s.offsets[i] < RestartOffset(s) <==> i < |s.pairs|
    {
      OffsetOrder(s, i, |s.pairs|);
    }
  }

  /** All pairs before one that comes before the target do so too. */
  lemma KeysBefore(less: Comparator, ps: seq<Pair>, i: nat, target: Bytes)
    requires Transitive(less) && SortedPairs(less, ps) && i <= |ps| && (i == 0 || (i < |ps| && less(ps[i].key, target)))
    ensures forall j :: 0 <= j < i ==> less(ps[j].key, target)
  {
    forall j | 0 <= j < i
      ensures less(ps[j].key, target)
    {
      assert less(ps[j].key, ps[i].key);
    }
  }

  /** Offsets are in the order of entries. */
  lemma OffsetOrder(s: Shape, i: nat, j: nat)
    requires ShapeOk(s) && i <= |s.pairs| && j <= |s.pairs|
    ensures s.offsets[i] < s.offsets[j] <==> i < j
  {
    if i < j {
      OffsetsGrow(s, i, j);
    } else if j < i {
      OffsetsGrow(s, j, i);
    }
  }

  lemma RestartsOrder(s: Shape, i: nat)
    requires ShapeOk(s) && i < |s.pairs|
    ensures |s.offsets| == |s.pairs| + 1
    ensures forall j :: 0 <= j < |s.restarts| ==>
              s.restarts[j] <= |s.pairs| && (s.offsets[s.restarts[j]] < s.offsets[i] <==> s.restarts[j] < i)
  {
    forall j | 0 <= j < |s.restarts|
      ensures s.restarts[j] <= |s.pairs| && (s.offsets[s.restarts[j]] < s.offsets[i] <==> s.restarts[j] < i)
    {
      OffsetOrder(s, s.restarts[j], i);
    }
  }

  lemma OffsetBelow(s: Shape, i: nat)
    requires ShapeOk(s) && i <= |s.pairs|
    ensures |s.offsets| == |s.pairs| + 1 && (s.offsets[i] < RestartOffset(s) <==> i < |s.pairs|)
  {
    OffsetOrder(s, i, |s.pairs|);
  }

  lemma EntryParts(s: Shape, i: nat)
    requires ShapeOk(s) && i < |s.pairs|
    ensures |s.shared| == |s.pairs| && |s.offsets| == |s.pairs| + 1
    ensures s.shared[i] <= |s.pairs[i].key| && |s.pairs[i].key| < WORD && |s.pairs[i].value| < WORD
    ensures s.offsets[i + 1] == s.offsets[i] + |EntryBytes(s.shared[i], s.pairs[i])|
  {
    hide EntryBytes;
  }

  datatype Decoded = Decoded(key: Bytes, value: Bytes, size: nat)

  /** The entry at the front of the bytes, with its key completed from the last one. */
  function DecodeInto(b: Bytes, key: Bytes): Option<Decoded> {
    var d := DecodeEntry(b);
    if d.None? || |key| < d.value.shared then None else
    var l, end := d.value, d.value.size + d.value.nonShared;
    Some(Decoded(key[..l.shared] + b[l.size..end], b[end..end + l.valueLength], end + l.valueLength))
  }

  lemma DecodeIntoOk(b: Bytes, key: Bytes, shared: nat, p: Pair, tail: Bytes)
    requires shared <= |p.key| && |p.key| < WORD && |p.value| < WORD
    requires b == EntryBytes(shared, p) + tail && SharesPrefix(key, p.key, shared)
    ensures DecodeInto(b, key) == Some(Decoded(p.key, p.value, |EntryBytes(shared, p)|))
  {
    hide *;
    EntryRoundTrip(shared, p, tail);
    DecodedIs(b, key, shared, p);
  }

  lemma DecodedIs(b: Bytes, key: Bytes, shared: nat, p: Pair)
    requires shared <= |p.key| && Decodes(b, shared, p) && SharesPrefix(key, p.key, shared)
    ensures DecodeInto(b, key) == Some(Decoded(p.key, p.value, |EntryBytes(shared, p)|))
  {
    hide DecodeEntry, HeadSize, EntryBytes;
    assert key[..shared] + p.key[shared..] == p.key;
  }

  // ------------------------------------------------------------------ writing and reading back

  /** Walking a block from the first pair on gives back all its pairs. */
  method ReadAll(it: BlockIter) returns (ps: seq<Pair>)
    requires it.Ok()
    modifies it
    ensures ps == it.shape.pairs
  {
    hide BlockIter.Base, BlockOf, ShapeOk;
    it.SeekToFirst();
    it.ValidIff();
    ps := [];
    while it.Valid()
      invariant it.Ok() && it.pos == |ps| <= |it.shape.pairs| && ps == it.shape.pairs[..|ps|]
      invariant it.Valid() <==> it.pos < |it.shape.pairs|
      decreases |it.shape.pairs| - |ps|
    {
      ps := ps + [Pair(it.key, it.value)];
      it.Next();
      it.ValidIff();
    }
  }

  /** More than a block with the pairs can take: at most 15 bytes of lengths and a restart
      point for each pair, and a restart point and the count of them besides. */
  function Weight(ps: seq<Pair>): nat {
    if ps == [] then 8 else Weight(ps[..|ps| - 1]) + |ps[|ps| - 1].key| + |ps[|ps| - 1].value| + 19
  }

  lemma VarintShort(v: nat)
    requires v < WORD
    ensures |Varint(v)| <= 5
  {
    Pow128Of5();
    VarintRoundTrip(v, 5, []);
    assert Varint(v) + [] == Varint(v);
  }

  lemma {:induction false} EntriesWeigh(s: Shape, n: nat)
    requires ShapeOk(s) && n <= |s.pairs|
    ensures |EntriesBytes(s, n)| + 4 * n + 8 <= Weight(s.pairs[..n])
  {
    hide Varint, RestartsOk, SharesPrefix;
    if n > 0 {
      EntriesWeigh(s, n - 1);
      var p, shared := s.pairs[n - 1], s.shared[n - 1];
      assert s.pairs[..n][..n - 1] == s.pairs[..n - 1];
      VarintShort(shared);
      VarintShort(|p.key| - shared);
      VarintShort(|p.value|);
    }
  }

  /** Different numbers below n are at most n. */
  lemma {:induction false} FewRestarts(rs: seq<nat>, n: nat)
    requires forall j :: 0 <= j < |rs| ==> rs[j] < n
    requires forall j, k :: 0 <= j < k < |rs| ==> rs[j] < rs[k]
    ensures |rs| <= n
  {
    if rs != [] {
      FewRestarts(rs[..|rs| - 1], rs[|rs| - 1]);
    }
  }

  lemma BlockWeighs(s: Shape)
    requires ShapeOk(s)
    ensures |EntriesBytes(s, |s.pairs|)| + 4 * |s.restarts| + 4 <= Weight(s.pairs)
  {
    EntriesWeigh(s, |s.pairs|);
    assert s.pairs[..|s.pairs|] == s.pairs;
    hide EntriesBytes, Weight, EntryBytes, SharesPrefix;
    FewRestarts(s.restarts, if s.pairs == [] then 1 else |s.pairs|);
  }

  /** Any pairs, stored with any restart interval, are read back, unless a block cannot
      hold that much. */
  method StoreAndRead(less: Comparator, restartInterval: nat, ps: seq<Pair>) returns (read: Option<seq<Pair>>)
    requires restartInterval >= 1 && forall i :: 0 <= i < |ps| ==> |ps[i].key| < WORD && |ps[i].value| < WORD
    ensures read.Some? ==> read.value == ps
    ensures read.None? ==> Weight(ps) >= WORD
  {
    hide BlockBuilder.Ok, BlockOf, BlockIter.Ok, Weight;
    var builder := new BlockBuilder(restartInterval);
    for i := 0 to |ps|
      invariant fresh(builder) && builder.Ok() && builder.shape.pairs == ps[..i]
    {
      builder.Add(ps[i].key, ps[i].value);
    }
    assert ps[..|ps|] == ps;
    builder.SizeBound();
    if builder.CurrentSizeEstimate() >= WORD {
      // more than a block can hold
      return None;
    }
    var data := builder.Finish();
    var it := new BlockIter(less, data, builder.shape);
    var all := ReadAll(it);
    return Some(all);
  }
}
