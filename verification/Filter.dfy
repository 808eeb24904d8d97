/** Bloom filters (util/bloom.cc) and the filter block of a table (table/filter_block.cc). */
module Filters {
  import opened Keys
  import opened Coding
  import opened Logs
  import opened Blocks

  // ------------------------------------------------------------------ bits

  predicate Bit(x: nat, b: nat) {
    if b == 0 then x % 2 == 1 else Bit(x / 2, b - 1)
  }

  /** x | (1 << b) */
  function SetBit(x: nat, b: nat): nat {
    if b == 0 then (if x % 2 == 1 then x else x + 1) else 2 * SetBit(x / 2, b - 1) + x % 2
  }

  lemma {:induction false} SetBitIff(x: nat, b: nat, c: nat)
    ensures Bit(SetBit(x, b), c) <==> c == b || Bit(x, c)
    decreases b
  {
    if b > 0 && c > 0 {
      SetBitIff(x / 2, b - 1, c - 1);
      assert SetBit(x, b) / 2 == SetBit(x / 2, b - 1);
    }
  }

  lemma SetBitByte(x: Byte, b: nat)
    requires b < 8
    ensures SetBit(x, b) < 256
  {
    SetBitBound(x, b, 8);
    assert Pow2(8) == 256;
  }

  function Pow2(n: nat): (r: nat)
    ensures r > 0
  {
    if n == 0 then 1 else 2 * Pow2(n - 1)
  }

  lemma {:induction false} SetBitBound(x: nat, b: nat, n: nat)
    requires b < n && x < Pow2(n)
    ensures SetBit(x, b) < Pow2(n)
    decreases n
  {
    if b > 0 {
      var p := Pow2(n - 1);
      assert x / 2 < p;
      SetBitBound(x / 2, b - 1, n - 1);
      assert SetBit(x, b) == 2 * SetBit(x / 2, b - 1) + x % 2 <= 2 * (p - 1) + 1;
    }
  }

  lemma {:induction false} NoBits(b: nat)
    ensures !Bit(0, b)
  {
    if b > 0 {
      NoBits(b - 1);
    }
  }

  /** The p-th bit of a string of bytes. */
  predicate BitAt(bytes: Bytes, p: nat) {
    p / 8 < |bytes| && Bit(bytes[p / 8], p % 8)
  }

  // ------------------------------------------------------------------ bloom filters

  type Hash = Bytes -> Word

  /** The hash rotated right by 17 bits; the two halves share no bit. */
  function Delta(h: Word): Word {
    h / 0x2_0000 + h % 0x2_0000 * 0x8000
  }

  /** The j-th of the hash values that double hashing makes, in 32-bit arithmetic. */
  function ProbeHash(h: Word, j: nat): (r: Word) {
    if j == 0 then h else (ProbeHash(h, j - 1) + Delta(h)) % WORD
  }

  function Probe(h: Word, j: nat, bits: nat): (p: nat)
    requires bits > 0
    ensures p < bits
  {
    ProbeHash(h, j) % bits
  }

  /** The number of probes: 0.69 of the bits per key, between 1 and 30. */
  function Probes(bitsPerKey: nat): (k: nat)
    ensures 1 <= k <= 30
  {
    var k := bitsPerKey * 69 / 100;
    if k < 1 then 1 else if k > 30 then 30 else k
  }

  function FilterBytes(bitsPerKey: nat, n: nat): (bytes: nat)
    ensures bytes >= 8
  {
    var bits := if n * bitsPerKey < 64 then 64 else n * bitsPerKey;
    (bits + 7) / 8
  }

  /** One of the first n keys (the last one with its first j probes) sets the bit. */
  ghost predicate ProbedBy(hash: Hash, keys: seq<Bytes>, n: nat, j: nat, k: nat, bits: nat, p: nat)
    requires bits > 0 && n <= |keys|
  {
    || (exists i, m :: 0 <= i < n && 0 <= m < k && p == Probe(hash(keys[i]), m, bits))
    || (n < |keys| && exists m :: 0 <= m < j && p == Probe(hash(keys[n]), m, bits))
  }

  /** Exactly the probed bits of the array are set. */
  ghost predicate Marks(hash: Hash, keys: seq<Bytes>, n: nat, j: nat, k: nat, bytes: Bytes)
    requires bytes != [] && n <= |keys|
  {
    forall p :: 0 <= p < 8 * |bytes| ==> (BitAt(bytes, p) <==> ProbedBy(hash, keys, n, j, k, 8 * |bytes|, p))
  }

  lemma NoMarks(hash: Hash, keys: seq<Bytes>, k: nat, bytes: Bytes)
    requires bytes != [] && forall i :: 0 <= i < |bytes| ==> bytes[i] == 0
    ensures Marks(hash, keys, 0, 0, k, bytes)
  {
    forall p | 0 <= p < 8 * |bytes|
      ensures !BitAt(bytes, p)
    {
      NoBits(p % 8);
    }
  }

  /** Setting a bit of a byte sets one bit of the array. */
  lemma SetBitAt(bytes: Bytes, p: nat, q: nat)
    requires p < 8 * |bytes| && q < 8 * |bytes|
    ensures SetBit(bytes[p / 8], p % 8) < 256
    ensures BitAt(bytes[p / 8 := SetBit(bytes[p / 8], p % 8)], q) <==> q == p || BitAt(bytes, q)
  {
    SetBitByte(bytes[p / 8], p % 8);
    SetBitIff(bytes[p / 8], p % 8, q % 8);
  }

  lemma MarkNext(hash: Hash, keys: seq<Bytes>, n: nat, j: nat, k: nat, bytes: Bytes)
    requires bytes != [] && n < |keys| && Marks(hash, keys, n, j, k, bytes)
    ensures var p := Probe(hash(keys[n]), j, 8 * |bytes|);
            SetBit(bytes[p / 8], p % 8) < 256 && Marks(hash, keys, n, j + 1, k, bytes[p / 8 := SetBit(bytes[p / 8], p % 8)])
  {
    var bits := 8 * |bytes|;
    var p := Probe(hash(keys[n]), j, bits);
    SetBitAt(bytes, p, p);
    var bytes' := bytes[p / 8 := SetBit(bytes[p / 8], p % 8)];
    hide SetBit, BitAt, Probe;
    forall q | 0 <= q < bits
      ensures BitAt(bytes', q) <==> ProbedBy(hash, keys, n, j + 1, k, bits, q)
    {
      SetBitAt(bytes, p, q);
      ProbedMore(hash, keys, n, j, k, bits, q);
    }
  }

  lemma ProbedMore(hash: Hash, keys: seq<Bytes>, n: nat, j: nat, k: nat, bits: nat, q: nat)
    requires bits > 0 && n < |keys|
    ensures ProbedBy(hash, keys, n, j + 1, k, bits, q) <==>
            ProbedBy(hash, keys, n, j, k, bits, q) || q == Probe(hash(keys[n]), j, bits)
  {
    hide Probe;
  }

  lemma MarkKey(hash: Hash, keys: seq<Bytes>, n: nat, k: nat, bytes: Bytes)
    requires bytes != [] && n < |keys| && Marks(hash, keys, n, k, k, bytes)
    ensures Marks(hash, keys, n + 1, 0, k, bytes)
  {
    hide BitAt, Probe;
    forall p | 0 <= p < 8 * |bytes|
      ensures ProbedBy(hash, keys, n, k, k, 8 * |bytes|, p) <==> ProbedBy(hash, keys, n + 1, 0, k, 8 * |bytes|, p)
    {
    }
  }

  /** BloomFilterPolicy::CreateFilter: a bit array in which exactly the bits probed for
      some key are set, followed by the number of probes. */
  method CreateFilter(bitsPerKey: nat, hash: Hash, keys: seq<Bytes>) returns (filter: Bytes)
    ensures |filter| == FilterBytes(bitsPerKey, |keys|) + 1 && filter[|filter| - 1] == Probes(bitsPerKey)
    ensures Marks(hash, keys, |keys|, 0, Probes(bitsPerKey), filter[..|filter| - 1])
  {
    hide SetBit, Marks, Probe, Delta;
    var k := Probes(bitsPerKey);
    var bytes := FilterBytes(bitsPerKey, |keys|);
    var bits := bytes * 8;
    var a := new Byte[bytes](_ => 0);
    NoMarks(hash, keys, k, a[..]);
    for i := 0 to |keys|
      invariant Marks(hash, keys, i, 0, k, a[..])
    {
      var h := hash(keys[i]);
      var delta := Delta(h);
      for j := 0 to k
        invariant h == ProbeHash(hash(keys[i]), j) && Marks(hash, keys, i, j, k, a[..])
      {
        MarkNext(hash, keys, i, j, k, a[..]);
        var bitpos := h % bits;
        assert bitpos == Probe(hash(keys[i]), j, bits) by { ProbeIs(hash(keys[i]), j, bits); }
        ghost var before := a[..];
        a[bitpos / 8] := SetBit(a[bitpos / 8], bitpos % 8);
        assert a[..] == before[bitpos / 8 := SetBit(before[bitpos / 8], bitpos % 8)];
        h := (h + delta) % WORD;
      }
      MarkKey(hash, keys, i, k, a[..]);
    }
    filter := a[..] + [k];
    assert filter[..bytes] == a[..];
  }

  lemma ProbeIs(h: Word, j: nat, bits: nat)
    requires bits > 0
    ensures Probe(h, j, bits) == ProbeHash(h, j) % bits
  {
  }

  /** What a filter says about a key: too short a filter matches nothing, an unknown
      encoding everything, and otherwise all probes have to hit. */
  predicate Matches(hash: Hash, key: Bytes, filter: Bytes) {
    && |filter| >= 2
    && var k, bits := filter[|filter| - 1], (|filter| - 1) * 8;
       k > 30 || forall j :: 0 <= j < k ==> BitAt(filter[..|filter| - 1], Probe(hash(key), j, bits))
  }

  /** BloomFilterPolicy::KeyMayMatch. */
  method KeyMayMatch(hash: Hash, key: Bytes, filter: Bytes) returns (b: bool)
    ensures b == Matches(hash, key, filter)
  {
    hide Bit, Delta;
    if |filter| < 2 {
      return false;
    }
    var bits, k := (|filter| - 1) * 8, filter[|filter| - 1];
    if k > 30 {
      return true;
    }
    var h := hash(key);
    var delta := Delta(h);
    for j := 0 to k
      invariant h == ProbeHash(hash(key), j)
      invariant forall m :: 0 <= m < j ==> BitAt(filter[..|filter| - 1], Probe(hash(key), m, bits))
    {
      var bitpos := h % bits;
      assert bitpos == Probe(hash(key), j, bits);
      if !Bit(filter[bitpos / 8], bitpos % 8) {
        assert !BitAt(filter[..|filter| - 1], bitpos);
        return false;
      }
      h := (h + delta) % WORD;
    }
    return true;
  }

  /** No false negatives: the filter matches each of its keys. */
  lemma CreatedMatches(bitsPerKey: nat, hash: Hash, keys: seq<Bytes>, filter: Bytes, i: nat)
    requires |filter| == FilterBytes(bitsPerKey, |keys|) + 1 && filter[|filter| - 1] == Probes(bitsPerKey)
    requires Marks(hash, keys, |keys|, 0, Probes(bitsPerKey), filter[..|filter| - 1]) && i < |keys|
    ensures Matches(hash, keys[i], filter)
  {
    hide BitAt, Probe;
    var k, bits := Probes(bitsPerKey), (|filter| - 1) * 8;
    forall j | 0 <= j < k
      ensures BitAt(filter[..|filter| - 1], Probe(hash(keys[i]), j, bits))
    {
      ProbeInside(hash(keys[i]), j, bits);
      assert ProbedBy(hash, keys, |keys|, 0, k, bits, Probe(hash(keys[i]), j, bits));
    }
  }

  lemma ProbeInside(h: Word, j: nat, bits: nat)
    requires bits > 0
    ensures Probe(h, j, bits) < bits
  {
  }

  // ------------------------------------------------------------------ the filter block

  /** A filter policy over the part of a key that the user knows. */
  datatype Policy = Policy(bitsPerKey: nat, hash: Hash, extract: Bytes -> Bytes)

  const FILTER_BASE_LG: Byte := 11
  const FILTER_BASE := 2048

  function Join(parts: seq<Bytes>): Bytes {
    if parts == [] then [] else Join(parts[..|parts| - 1]) + parts[|parts| - 1]
  }

  /** Where each part starts. */
  function Starts(parts: seq<Bytes>): (r: seq<nat>)
    ensures |r| == |parts|
  {
    if parts == [] then [] else Starts(parts[..|parts| - 1]) + [|Join(parts[..|parts| - 1])|]
  }

  lemma {:induction false} StartAt(parts: seq<Bytes>, i: nat)
    requires i < |parts|
    ensures Starts(parts)[i] == |Join(parts[..i])|
    decreases |parts|
  {
    var n := |parts| - 1;
    if i < n {
      StartAt(parts[..n], i);
      assert parts[..n][..i] == parts[..i];
    }
  }

  /** Each part lies between its start and the next one. */
  lemma {:induction false} PartAt(parts: seq<Bytes>, i: nat)
    requires i < |parts|
    ensures |Join(parts[..i])| <= |Join(parts[..i + 1])| <= |Join(parts)|
    ensures Join(parts)[|Join(parts[..i])|..|Join(parts[..i + 1])|] == parts[i]
    decreases |parts|
  {
    var n := |parts| - 1;
    assert parts[..|parts|] == parts;
    assert parts[..i + 1][..i] == parts[..i];
    if i < n {
      PartAt(parts[..n], i);
      assert parts[..n][..i] == parts[..i] && parts[..n][..i + 1] == parts[..i + 1];
      var front := Join(parts[..n]);
      assert Join(parts)[..|front|] == front;
    }
  }

  /** A key that was added while the current block started at `block`. */
  datatype Added = Added(block: nat, key: Bytes)

  /** Every added key matches the filter of its block, or waits for the next filter. */
  ghost predicate AddedOk(policy: Policy, added: seq<Added>, filters: seq<Bytes>, pending: seq<Bytes>) {
    forall i :: 0 <= i < |added| ==>
      var f := added[i].block / FILTER_BASE;
      && f <= |filters|
      && (f < |filters| ==> Matches(policy.hash, policy.extract(added[i].key), filters[f]))
      && (f == |filters| ==> added[i].key in pending)
  }

  /** More than the filters of some keys take. */
  function KeysCost(bitsPerKey: nat, n: nat): nat {
    n * (bitsPerKey + 10)
  }

  lemma FilterCost(bitsPerKey: nat, n: nat)
    requires n > 0
    ensures FilterBytes(bitsPerKey, n) + 1 <= KeysCost(bitsPerKey, n)
  {
    assert KeysCost(bitsPerKey, n) == n * bitsPerKey + 10 * n;
  }

  lemma NoKeysCost(bitsPerKey: nat)
    ensures KeysCost(bitsPerKey, 0) == 0
  {
  }

  lemma CostAdds(bitsPerKey: nat, a: nat, b: nat)
    ensures KeysCost(bitsPerKey, a + b) == KeysCost(bitsPerKey, a) + KeysCost(bitsPerKey, b)
  {
  }

  class FilterBlockBuilder {
    const policy: Policy
    var keys: Bytes                  // the pending keys, one after the other
    var start: seq<nat>              // where each of them starts
    var result: Bytes                // the filters so far
    var filterOffsets: seq<nat>
    ghost var pending: seq<Bytes>
    ghost var filters: seq<Bytes>
    ghost var added: seq<Added>
    ghost var block: Option<nat>     // where the current block starts

    ghost predicate Ok()
      reads this
    {
      && keys == Join(pending) && start == Starts(pending)
      && result == Join(filters) && filterOffsets == Starts(filters)
      && AddedOk(policy, added, filters, pending)
      && (block.Some? ==> block.value / FILTER_BASE == |filters|)
      && (block.None? ==> pending == [])
      && Paid()
    }

    /** The added keys pay for the filters and for the keys that wait for one. */
    ghost predicate Paid()
      reads this`result, this`pending, this`added
    {
      |result| + KeysCost(policy.bitsPerKey, |pending|) <= KeysCost(policy.bitsPerKey, |added|)
    }

    constructor (policy: Policy)
      ensures Ok() && added == [] && block.None? && filterOffsets == [] && this.policy == policy
    {
      this.policy := policy;
      keys, start, result, filterOffsets := [], [], [], [];
      pending, filters, added, block := [], [], [], None;
    }

    /** A block starts: filters are made for the stretches of the file before it. */
    method StartBlock(blockOffset: nat)
      requires Ok() && |filterOffsets| <= blockOffset / FILTER_BASE
      modifies this
      ensures Ok() && block == Some(blockOffset) && added == old(added)
    {
      hide AddedOk, KeysCost;
      var filterIndex := blockOffset / FILTER_BASE;
      while filterIndex > |filterOffsets|
        invariant Ok() && |filterOffsets| <= filterIndex && added == old(added)
        decreases filterIndex - |filterOffsets|
      {
        block := None;
        GenerateFilter();
      }
      block := Some(blockOffset);
    }

    method AddKey(key: Bytes)
      requires Ok() && block.Some?
      modifies this
      ensures Ok() && block == old(block) && added == old(added) + [Added(block.value, key)]
    {
      hide Join, Starts, AddedOk, KeysCost;
      CostAdds(policy.bitsPerKey, |pending|, 1);
      CostAdds(policy.bitsPerKey, |added|, 1);
      JoinMore(pending, key);
      AddedMore(policy, added, filters, pending, block.value, key);
      start := start + [|keys|];
      keys := keys + key;
      pending := pending + [key];
      added := added + [Added(block.value, key)];
    }

    /** Closes the current filter, with whatever keys are pending. */
    method GenerateFilter()
      requires keys == Join(pending) && start == Starts(pending) && result == Join(filters) && filterOffsets == Starts(filters)
      requires AddedOk(policy, added, filters, pending) && Paid()
      modifies this`keys, this`start, this`result, this`filterOffsets, this`pending, this`filters
      ensures pending == [] && keys == [] && start == [] && result == Join(filters) && filterOffsets == Starts(filters)
      ensures AddedOk(policy, added, filters, []) && |filters| == old(|filters|) + 1 && filters[..old(|filters|)] == old(filters)
      ensures Paid()
    {
      hide Matches, Marks, Join, Starts, KeysCost, FilterBytes;
      NoKeysCost(policy.bitsPerKey);
      var filter: Bytes := [];
      filterOffsets := filterOffsets + [|result|];
      if start != [] {
        var tmpKeys := ExtractKeys(policy, keys, start, pending);
        filter := CreateFilter(policy.bitsPerKey, policy.hash, tmpKeys);
        forall i | 0 <= i < |pending|
          ensures Matches(policy.hash, policy.extract(pending[i]), filter)
        {
          CreatedMatches(policy.bitsPerKey, policy.hash, tmpKeys, filter, i);
        }
        FilterCost(policy.bitsPerKey, |pending|);
        result := result + filter;
      } else {
        assert result + [] == result;
      }
      GeneratedOk(policy, added, filters, pending, filter);
      JoinMore(filters, filter);
      NoParts();
      filters := filters + [filter];
      keys, start, pending := [], [], [];
    }

    /** There is a filter for each stretch of the file before the current block. */
    lemma CountFilters()
      requires Ok()
      ensures block.Some? ==> |filters| <= block.value / FILTER_BASE
    {
    }

    /** The filters, where each of them starts, where that array starts, and the base. */
    method Finish() returns (contents: Bytes)
      requires Ok()
      modifies this
      ensures added == old(added) && |filters| == |filterOffsets|
      ensures contents == result + Fixed32s(filterOffsets + [|result|]) + [FILTER_BASE_LG]
      ensures result == Join(filters) && filterOffsets == Starts(filters) && AddedOk(policy, added, filters, [])
      ensures |filters| <= old(|filters|) + 1
      ensures |contents| <= KeysCost(policy.bitsPerKey, |added|) + 4 * (|filters| + 1) + 1
    {
      hide AddedOk, Join, Starts, Fixed32s, Fixed, KeysCost;
      NoKeysCost(policy.bitsPerKey);
      block := None;
      if start != [] {
        GenerateFilter();
      } else {
        NonePending(pending);
      }
      contents := AppendOffsets(result, filterOffsets);
      Fixed32sMore(filterOffsets, |result|);
      contents := contents + Fixed(|result|, 4) + [FILTER_BASE_LG];
    }

    method AppendOffsets(front: Bytes, offsets: seq<nat>) returns (contents: Bytes)
      ensures contents == front + Fixed32s(offsets)
    {
      contents := front;
      for i := 0 to |offsets|
        invariant contents == front + Fixed32s(offsets[..i])
      {
        assert offsets[..i + 1][..i] == offsets[..i];
        contents := contents + Fixed(offsets[i], 4);
      }
      assert offsets[..|offsets|] == offsets;
    }
  }

  lemma Fixed32sMore(ns: seq<nat>, n: nat)
    ensures Fixed32s(ns + [n]) == Fixed32s(ns) + Fixed(n, 4)
  {
    assert (ns + [n])[..|ns|] == ns;
  }

  lemma JoinMore(parts: seq<Bytes>, part: Bytes)
    ensures Join(parts + [part]) == Join(parts) + part && Starts(parts + [part]) == Starts(parts) + [|Join(parts)|]
  {
    assert (parts + [part])[..|parts|] == parts;
  }

  lemma NoParts()
    ensures Join([]) == [] && Starts([]) == []
  {
  }

  /** Takes the flattened keys apart and extracts from each what the filter is made of. */
  method ExtractKeys(policy: Policy, keys: Bytes, start: seq<nat>, ghost pending: seq<Bytes>) returns (tmpKeys: seq<Bytes>)
    requires keys == Join(pending) && start == Starts(pending)
    ensures tmpKeys == ExtractAll(policy, pending)
  {
    hide Join, Starts;
    var all := start + [|keys|];
    tmpKeys := [];
    for i := 0 to |start|
      invariant tmpKeys == ExtractAll(policy, pending[..i])
    {
      PendingKey(pending, i);
      assert pending[..i + 1] == pending[..i] + [pending[i]];
      tmpKeys := tmpKeys + [policy.extract(keys[all[i]..all[i + 1]])];
    }
    assert pending[..|pending|] == pending;
  }

  lemma AddedMore(policy: Policy, added: seq<Added>, filters: seq<Bytes>, pending: seq<Bytes>, block: nat, key: Bytes)
    requires AddedOk(policy, added, filters, pending) && block / FILTER_BASE == |filters|
    ensures AddedOk(policy, added + [Added(block, key)], filters, pending + [key])
  {
    hide Matches;
  }

  function ExtractAll(policy: Policy, keys: seq<Bytes>): (r: seq<Bytes>)
    ensures |r| == |keys| && forall i :: 0 <= i < |r| ==> r[i] == policy.extract(keys[i])
  {
    seq(|keys|, i requires 0 <= i < |keys| => policy.extract(keys[i]))
  }

  lemma NonePending(pending: seq<Bytes>)
    requires Starts(pending) == []
    ensures pending == []
  {
  }

  lemma PendingKey(pending: seq<Bytes>, i: nat)
    requires i < |pending|
    ensures var all := Starts(pending) + [|Join(pending)|];
            && all[i] <= all[i + 1] <= |Join(pending)|
            && Join(pending)[all[i]..all[i + 1]] == pending[i]
  {
    PartAt(pending, i);
    StartAt(pending, i);
    if i + 1 < |pending| {
      StartAt(pending, i + 1);
    } else {
      assert pending[..i + 1] == pending;
    }
  }

  /** With one more filter, made of the pending keys, none is pending. */
  lemma GeneratedOk(policy: Policy, added: seq<Added>, filters: seq<Bytes>, pending: seq<Bytes>, filter: Bytes)
    requires AddedOk(policy, added, filters, pending)
    requires forall i :: 0 <= i < |pending| ==> Matches(policy.hash, policy.extract(pending[i]), filter)
    ensures AddedOk(policy, added, filters + [filter], [])
  {
    hide Matches;
  }

  // ------------------------------------------------------------------ reading the filter block

  class FilterBlockReader {
    const policy: Policy
    const contents: Bytes
    const offset: nat        // where the array of starts begins
    const num: nat           // how many filters there are
    const baseLg: nat

    /** A block too short, or with an array past its end, has no filters. */
    constructor (policy: Policy, contents: Bytes)
      ensures this.policy == policy && this.contents == contents
      ensures var n := |contents|;
              if n < 5 || FromFixed(contents[n - 5..n - 1]) > n - 5 then num == 0
              else
                && baseLg == contents[n - 1] && offset == FromFixed(contents[n - 5..n - 1])
                && num == (n - 5 - offset) / 4
    {
      this.policy, this.contents := policy, contents;
      var n := |contents|;
      offset, num, baseLg := 0, 0, 0;
      if n >= 5 {
        baseLg := contents[n - 1];
        var lastWord := FromFixed(contents[n - 5..n - 1]);
        if lastWord <= n - 5 {
          offset, num := lastWord, (n - 5 - lastWord) / 4;
        }
      }
    }

    /** FilterBlockReader::KeyMayMatch; errors count as potential matches. */
    method MayMatch(blockOffset: nat, key: Bytes) returns (b: bool)
      ensures b == Answer(policy, contents, offset, num, Shifted(blockOffset, baseLg), key)
    {
      hide Matches, Fixed32In, Shifted;
      var index := Shifted(blockOffset, baseLg);
      if index < num {
        var from, to := Fixed32In(contents, offset + index * 4), Fixed32In(contents, offset + index * 4 + 4);
        if from <= to && to <= offset && offset <= |contents| {
          b := KeyMayMatch(policy.hash, policy.extract(key), contents[from..to]);
          return b;
        } else if from == to {
          // empty filters do not match any keys
          return false;
        }
      }
      return true;
    }
  }

  /** n >> lg */
  function Shifted(n: nat, lg: nat): nat {
    if lg == 0 then n else Shifted(n / 2, lg - 1)
  }

  /** What the reader answers for the filter of a number. */
  predicate Answer(policy: Policy, contents: Bytes, offset: nat, num: nat, index: nat, key: Bytes) {
    if index >= num then true else
    var from, to := Fixed32In(contents, offset + index * 4), Fixed32In(contents, offset + index * 4 + 4);
    if from <= to <= offset && offset <= |contents| then Matches(policy.hash, policy.extract(key), contents[from..to])
    else from != to
  }

  /** The contents of a finished filter block. */
  ghost predicate FilterBlock(contents: Bytes, filters: seq<Bytes>) {
    |contents| < WORD && contents == Join(filters) + Fixed32s(Starts(filters) + [|Join(filters)|]) + [FILTER_BASE_LG]
  }

  /** The reader finds the array and the base. */
  lemma ReaderFinds(contents: Bytes, filters: seq<Bytes>)
    requires FilterBlock(contents, filters)
    ensures var n := |contents|;
            && n >= 5 && contents[n - 1] == FILTER_BASE_LG
            && FromFixed(contents[n - 5..n - 1]) == |Join(filters)|
            && |Join(filters)| <= n - 5 && (n - 5 - |Join(filters)|) / 4 == |filters|
  {
    var starts := Starts(filters) + [|Join(filters)|];
    hide Join, Starts, FromFixed, Fixed32s;
    var n, array_ := |contents|, Fixed32s(starts);
    Fixed32At(starts, |filters|);
    InMiddle(Join(filters), array_, [FILTER_BASE_LG], 4 * |filters|, 4);
  }

  /** The reader finds where a filter starts and ends. */
  lemma ReaderFinds2(contents: Bytes, filters: seq<Bytes>, i: nat)
    requires FilterBlock(contents, filters) && i < |filters|
    ensures var offset := |Join(filters)|;
            var from, to := Fixed32In(contents, offset + i * 4), Fixed32In(contents, offset + i * 4 + 4);
            from <= to <= offset <= |contents| && contents[from..to] == filters[i]
  {
    hide *;
    var starts := Starts(filters) + [|Join(filters)|];
    PendingKey(filters, i);
    BoundedStarts(filters);
    FilterBytesAre(contents, filters);
    RestartIn(Join(filters), starts, [FILTER_BASE_LG], i);
    RestartIn(Join(filters), starts, [FILTER_BASE_LG], i + 1);
    InFront(Join(filters), contents, starts[i], starts[i + 1]);
  }

  lemma FilterBytesAre(contents: Bytes, filters: seq<Bytes>)
    requires FilterBlock(contents, filters)
    ensures contents == Join(filters) + Fixed32s(Starts(filters) + [|Join(filters)|]) + [FILTER_BASE_LG]
    ensures Join(filters) <= contents && |contents| < WORD
  {
  }

  lemma InFront(a: Bytes, b: Bytes, from: nat, to: nat)
    requires a <= b && from <= to <= |a|
    ensures b[from..to] == a[from..to]
  {
  }

  lemma {:induction false} BoundedStarts(parts: seq<Bytes>)
    ensures forall i :: 0 <= i < |parts| ==> Starts(parts)[i] <= |Join(parts)|
  {
    if parts != [] {
      BoundedStarts(parts[..|parts| - 1]);
    }
  }

  /** No false negatives: a key that was added while its block started at an offset
      matches when asked for at that offset. */
  lemma AddedKeysMatch(policy: Policy, contents: Bytes, filters: seq<Bytes>, added: seq<Added>, i: nat, f: nat)
    requires FilterBlock(contents, filters) && AddedOk(policy, added, filters, []) && i < |added|
    requires f == added[i].block / FILTER_BASE
    ensures Answer(policy, contents, |Join(filters)|, |filters|, f, added[i].key)
  {
    hide *;
    AddedParts(policy, added, filters, i);
    ReaderFinds2(contents, filters, f);
    AnswerIs(policy, contents, |Join(filters)|, |filters|, f, added[i].key, filters[f]);
  }

  lemma AddedParts(policy: Policy, added: seq<Added>, filters: seq<Bytes>, i: nat)
    requires AddedOk(policy, added, filters, []) && i < |added|
    ensures var f := added[i].block / FILTER_BASE;
            f < |filters| && Matches(policy.hash, policy.extract(added[i].key), filters[f])
  {
    hide Matches;
  }

  lemma AnswerIs(policy: Policy, contents: Bytes, offset: nat, num: nat, index: nat, key: Bytes, filter: Bytes)
    requires index < num && Matches(policy.hash, policy.extract(key), filter)
    requires var from, to := Fixed32In(contents, offset + index * 4), Fixed32In(contents, offset + index * 4 + 4);
             from <= to <= offset <= |contents| && contents[from..to] == filter
    ensures Answer(policy, contents, offset, num, index, key)
  {
    hide Matches, Fixed32In;
  }

  lemma ShiftBy3(n: nat, lg: nat)
    requires lg >= 3
    ensures Shifted(n, lg) == Shifted(n / 8, lg - 3)
  {
    assert Shifted(n, lg) == Shifted(n / 2, lg - 1);
    assert Shifted(n / 2, lg - 1) == Shifted(n / 2 / 2, lg - 2);
    assert Shifted(n / 2 / 2, lg - 2) == Shifted(n / 2 / 2 / 2, lg - 3);
  }

  lemma BaseIs(n: nat)
    ensures Shifted(n, FILTER_BASE_LG as nat) == n / FILTER_BASE
  {
    ShiftBy3(n, 11);
    ShiftBy3(n / 8, 8);
    ShiftBy3(n / 8 / 8, 5);
    var m := n / 8 / 8 / 8;
    assert Shifted(m, 2) == Shifted(m / 2, 1) == Shifted(m / 2 / 2, 0) == m / 2 / 2;
  }

  /** Building a filter block with any legal calls and asking for a key that was added.
      Offsets of 32 bits tell where the filters of a block below four gigabytes are. */
  method AskForAdded(builder: FilterBlockBuilder, blockOffset: nat, key: Bytes, ghost i: nat) returns (contents: Bytes, b: bool)
    requires builder.Ok() && i < |builder.added| && builder.added[i] == Added(blockOffset, key)
    modifies builder
    ensures contents == Join(builder.filters) + Fixed32s(Starts(builder.filters) + [|Join(builder.filters)|]) + [FILTER_BASE_LG]
    ensures |contents| < WORD ==> b
  {
    hide Matches, Join, Starts, Fixed32s, AddedOk, Answer, Shifted, FromFixed;
    contents := builder.Finish();
    if |contents| < WORD {
      ReaderFinds(contents, builder.filters);
      BaseIs(blockOffset);
      AddedKeysMatch(builder.policy, contents, builder.filters, builder.added, i, blockOffset / FILTER_BASE);
    }
    var reader := new FilterBlockReader(builder.policy, contents);
    b := reader.MayMatch(blockOffset, key);
  }
}
