/** Short separators and successors of keys: the bytewise comparator (util/comparator.cc)
    and the internal one on top of it (db/dbformat.cc). */
module Separators {
  import opened Keys
  import opened Coding

  // ------------------------------------------------------------------ bytewise order

  /** Slice::compare: the first difference decides, and a prefix comes first. */
  predicate BytesLess(a: Bytes, b: Bytes) {
    b != [] && (a == [] || a[0] < b[0] || (a[0] == b[0] && BytesLess(a[1..], b[1..])))
  }

  /** The first difference of two strings decides. */
  lemma {:induction false} FirstDifference(a: Bytes, b: Bytes, n: nat)
    requires n <= |a| && n <= |b| && a[..n] == b[..n]
    requires n < |a| && n < |b| ==> a[n] != b[n]
    ensures BytesLess(a, b) <==> n < |b| && (n == |a| || a[n] < b[n])
  {
    if n > 0 {
      assert a[0] == a[..n][0] == b[..n][0] == b[0];
      assert a[1..][..n - 1] == a[..n][1..] && b[1..][..n - 1] == b[..n][1..];
      FirstDifference(a[1..], b[1..], n - 1);
    }
  }

  lemma {:induction false} BytesTotal(a: Bytes, b: Bytes)
    ensures BytesLess(a, b) || BytesLess(b, a) || a == b
    ensures !(BytesLess(a, b) && BytesLess(b, a)) && !BytesLess(a, a)
    decreases |a|
  {
    if a != [] {
      BytesTotal(a[1..], if b == [] then [] else b[1..]);
      assert a == [a[0]] + a[1..];
      if b != [] {
        assert b == [b[0]] + b[1..];
      }
    }
  }

  lemma {:induction false} BytesTransitive(a: Bytes, b: Bytes, c: Bytes)
    requires BytesLess(a, b) && BytesLess(b, c)
    ensures BytesLess(a, c)
    decreases |a|
  {
    if a != [] && a[0] == b[0] == c[0] {
      BytesTransitive(a[1..], b[1..], c[1..]);
    }
  }

  /** Where two strings first differ, or where the shorter one ends. */
  method Difference(a: Bytes, b: Bytes) returns (n: nat)
    ensures n <= |a| && n <= |b| && a[..n] == b[..n] && (n < |a| && n < |b| ==> a[n] != b[n])
  {
    n := 0;
    while n < |a| && n < |b| && a[n] == b[n]
      invariant n <= |a| && n <= |b| && a[..n] == b[..n]
    {
      n := n + 1;
    }
  }

  /** The strings first differ at i, and there is room for a byte between theirs. */
  predicate RoomAt(start: Bytes, limit: Bytes, i: nat) {
    i < |start| && i < |limit| && start[..i] == limit[..i] && start[i] < 0xff && start[i] + 1 < limit[i]
  }

  /** The bytes up to the i-th, and that one raised. */
  function RaisedAt(s: Bytes, i: nat): Bytes
    requires i < |s| && s[i] < 0xff
  {
    s[..i] + [s[i] + 1]
  }

  lemma OneRoom(start: Bytes, limit: Bytes, n: nat)
    requires n <= |start| && n <= |limit| && start[..n] == limit[..n] && (n < |start| && n < |limit| ==> start[n] != limit[n])
    ensures forall i: nat :: RoomAt(start, limit, i) ==> i == n
  {
    assert forall i :: 0 <= i < n ==> start[i] == start[..n][i] == limit[..n][i] == limit[i];
    forall i: nat | RoomAt(start, limit, i)
      ensures i == n
    {
      assert forall j :: 0 <= j < i ==> start[j] == start[..i][j] == limit[..i][j] == limit[j];
    }
  }

  /** BytewiseComparator::FindShortestSeparator: a string between the two, no longer than
      the first; a changed one lies strictly between them.  It is changed exactly if there
      is room where the strings first differ, and then everything behind is dropped. */
  method FindShortestSeparator(start: Bytes, limit: Bytes) returns (sep: Bytes)
    ensures |sep| <= |start|
    ensures sep == start || (BytesLess(start, sep) && BytesLess(sep, limit))
    ensures forall i: nat :: RoomAt(start, limit, i) ==> sep == RaisedAt(start, i)
    ensures (forall i: nat :: !RoomAt(start, limit, i)) ==> sep == start
  {
    sep := start;
    var i := Difference(start, limit);
    OneRoom(start, limit, i);
    if i >= |start| || i >= |limit| {
      // do not shorten if one string is a prefix of the other
    } else {
      var diffByte := start[i];
      if diffByte < 0xff && diffByte + 1 < limit[i] {
        assert RoomAt(start, limit, i);
        sep := start[..i] + [diffByte + 1];
        assert sep[..i] == start[..i];
        FirstDifference(start, sep, i);
        FirstDifference(sep, limit, i);
      }
    }
  }

  /** The i-th byte is the first that can be raised. */
  predicate RisesAt(key: Bytes, i: nat) {
    i < |key| && key[i] != 0xff && forall j :: 0 <= j < i ==> key[j] == 0xff
  }

  /** BytewiseComparator::FindShortSuccessor: a string at or after the key, no longer: the
      first byte that can be raised is, and everything behind is dropped. */
  method FindShortSuccessor(key: Bytes) returns (succ: Bytes)
    ensures |succ| <= |key| && (succ == key || BytesLess(key, succ))
    ensures forall i: nat :: RisesAt(key, i) ==> succ == RaisedAt(key, i)
    ensures (forall i: nat :: !RisesAt(key, i)) ==> succ == key
  {
    for i := 0 to |key|
      invariant forall j :: 0 <= j < i ==> key[j] == 0xff
    {
      if key[i] != 0xff {
        succ := key[..i] + [key[i] + 1];
        assert RisesAt(key, i);
        assert succ[..i] == key[..i];
        FirstDifference(key, succ, i);
        return;
      }
    }
    return key;
  }

  // ------------------------------------------------------------------ internal keys as bytes

  /** An internal key as stored: the user key, and eight bytes of sequence number and type. */
  predicate IsInternal(k: Bytes) {
    |k| >= 8
  }

  function User(k: Bytes): Bytes
    requires IsInternal(k)
  {
    k[..|k| - 8]
  }

  function TagOf(k: Bytes): nat
    requires IsInternal(k)
  {
    FromFixed(k[|k| - 8..])
  }

  /** InternalKeyComparator::Compare. */
  predicate InternalLess(a: Bytes, b: Bytes) {
    && IsInternal(a) && IsInternal(b)
    && (BytesLess(User(a), User(b)) || (User(a) == User(b) && TagOf(a) > TagOf(b)))
  }

  lemma InternalTransitive(a: Bytes, b: Bytes, c: Bytes)
    requires InternalLess(a, b) && InternalLess(b, c)
    ensures InternalLess(a, c)
  {
    if BytesLess(User(a), User(b)) && BytesLess(User(b), User(c)) {
      BytesTransitive(User(a), User(b), User(c));
    }
  }

  /** The largest tag: the earliest entry of a user key. */
  const SEEK_TAG := MAX_SEQUENCE * 256 + 1

  function WithTag(user: Bytes, tag: nat): (k: Bytes)
    requires tag < LONG
    ensures IsInternal(k) && User(k) == user && TagOf(k) == tag
  {
    var k := user + EncodeFixed64(tag);
    assert k[..|k| - 8] == user && k[|k| - 8..] == EncodeFixed64(tag);
    k
  }

  /** A separator of a block from the next one: the last key itself, or a key whose user
      key lies strictly between the user keys of both. */
  ghost predicate Separates(start: Bytes, sep: Bytes, limit: Bytes)
    requires IsInternal(start) && IsInternal(limit)
  {
    || sep == start
    || (IsInternal(sep) && BytesLess(User(start), User(sep)) && BytesLess(User(sep), User(limit)))
  }

  /** InternalKeyComparator::FindShortestSeparator: the user key is replaced if it becomes
      shorter, and then it comes with the largest tag. */
  method FindInternalSeparator(start: Bytes, limit: Bytes) returns (sep: Bytes)
    requires IsInternal(start) && IsInternal(limit)
    ensures Separates(start, sep, limit) && |sep| <= |start|
    ensures forall i: nat :: RoomAt(User(start), User(limit), i) && i + 1 < |User(start)| ==>
              sep == WithTag(RaisedAt(User(start), i), SEEK_TAG)
    ensures (forall i: nat :: RoomAt(User(start), User(limit), i) ==> i + 1 == |User(start)|) ==> sep == start
  {
    sep := start;
    var userStart, userLimit := User(start), User(limit);
    var tmp := FindShortestSeparator(userStart, userLimit);
    if |tmp| < |userStart| && BytesLess(userStart, tmp) {
      sep := WithTag(tmp, SEEK_TAG);
    }
  }

  /** InternalKeyComparator::FindShortSuccessor. */
  method FindInternalSuccessor(key: Bytes) returns (succ: Bytes)
    requires IsInternal(key)
    ensures IsInternal(succ) && |succ| <= |key| && (succ == key || BytesLess(User(key), User(succ)))
    ensures forall i: nat :: RisesAt(User(key), i) && i + 1 < |User(key)| ==> succ == WithTag(RaisedAt(User(key), i), SEEK_TAG)
    ensures (forall i: nat :: RisesAt(User(key), i) ==> i + 1 == |User(key)|) ==> succ == key
  {
    succ := key;
    var userKey := User(key);
    var tmp := FindShortSuccessor(userKey);
    if |tmp| < |userKey| && BytesLess(userKey, tmp) {
      succ := WithTag(tmp, SEEK_TAG);
    }
  }
}
