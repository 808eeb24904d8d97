/** Internal keys, entries and sorted runs of entries: the vocabulary shared by
    memtables, table files, iterators and versions. */
module Keys {

  /** LevelDB takes any user comparator.  Nothing but the order of user keys is
      used here, and every countable total order embeds in the reals, so a real
      number stands for the place of a key in the user's order. */
  type UserKey = real

  type Value = string

  datatype Option<+T> = None | Some(value: T)

  datatype ValueType = TypeDeletion | TypeValue

  /** The largest sequence number: 56 bits, since a tag keeps 8 bits for the type. */
  const MAX_SEQUENCE := 0xFF_FFFF_FFFF_FFFF

  type SequenceNumber = s: nat | s <= MAX_SEQUENCE

  datatype InternalKey = InternalKey(user: UserKey, sequence: SequenceNumber, kind: ValueType) {
    /** The sequence number and the type packed into one number. */
    function Tag(): nat {
      sequence * 256 + if kind.TypeValue? then 1 else 0
    }
  }

  datatype Entry = Entry(key: InternalKey, value: Value)

  /** The internal key order: increasing user key, then decreasing tag. */
  predicate Less(a: InternalKey, b: InternalKey) {
    a.user < b.user || (a.user == b.user && a.Tag() > b.Tag())
  }

  /** The seek key of a user key at a sequence number: it comes before every
      entry of that user key that is visible at the number, and after the others. */
  function SeekKey(k: UserKey, s: SequenceNumber): InternalKey {
    InternalKey(k, s, TypeValue)
  }

  predicate Sorted(r: seq<Entry>) {
    forall i, j :: 0 <= i < j < |r| ==> Less(r[i].key, r[j].key)
  }

  /** The number of leading entries before `t`; in a sorted run, the index of the
      first entry at or after `t`. */
  function LowerBound(r: seq<Entry>, t: InternalKey): (n: nat)
    ensures n <= |r|
  {
    if r == [] || !Less(r[0].key, t) then 0 else 1 + LowerBound(r[1..], t)
  }

  lemma {:induction false} LowerBoundSplits(r: seq<Entry>, t: InternalKey)
    requires Sorted(r)
    ensures forall i :: 0 <= i < |r| ==> (i < LowerBound(r, t) <==> Less(r[i].key, t))
  {
    if r != [] && Less(r[0].key, t) {
      LowerBoundSplits(r[1..], t);
      assert forall i :: 1 <= i < |r| ==> r[i] == r[1..][i - 1];
    }
  }

  lemma {:induction false} LowerBoundIs(r: seq<Entry>, t: InternalKey, n: nat)
    requires n <= |r| && (forall i :: 0 <= i < n ==> Less(r[i].key, t)) && (n < |r| ==> !Less(r[n].key, t))
    ensures LowerBound(r, t) == n
  {
    if n > 0 {
      LowerBoundIs(r[1..], t, n - 1);
    }
  }

  /** In a sorted run the order of keys is the order of indices. */
  lemma SortedIndex(r: seq<Entry>, i: nat, j: nat)
    requires Sorted(r) && i < |r| && j < |r|
    ensures Less(r[i].key, r[j].key) <==> i < j
  {
    if j < i {
      assert Less(r[j].key, r[i].key);
    }
  }

  /** MemTable::Add: the entry joins the sorted run. */
  function InsertEntry(r: seq<Entry>, e: Entry): (q: seq<Entry>)
    ensures |q| == |r| + 1
  {
    var i := LowerBound(r, e.key);
    r[..i] + [e] + r[i..]
  }

  lemma InsertEntryOk(r: seq<Entry>, e: Entry)
    requires Sorted(r) && forall x :: x in r ==> x.key.user != e.key.user || x.key.sequence != e.key.sequence
    ensures Sorted(InsertEntry(r, e))
    ensures forall x :: x in InsertEntry(r, e) <==> x in r || x == e
  {
    InsertEntrySorted(r, e);
    hide Sorted;
    var i := LowerBound(r, e.key);
    assert r == r[..i] + r[i..];
  }

  lemma InsertEntrySorted(r: seq<Entry>, e: Entry)
    requires Sorted(r) && forall x :: x in r ==> x.key.user != e.key.user || x.key.sequence != e.key.sequence
    ensures Sorted(InsertEntry(r, e))
  {
    var i, q := LowerBound(r, e.key), InsertEntry(r, e);
    LowerBoundSplits(r, e.key);
    hide LowerBound;
    forall j | i <= j < |r|
      ensures Less(e.key, r[j].key)
    {
      assert r[j] in r;
    }
    forall j, k | 0 <= j < k < |q|
      ensures Less(q[j].key, q[k].key)
    {
      assert q[j] == if j < i then r[j] else if j == i then e else r[j - 1];
      assert q[k] == if k < i then r[k] else if k == i then e else r[k - 1];
    }
  }
}
