/** What a database means: the plain map left by the first writes, and how a set of
    stored entries answers a read. */
module History {
  import opened Keys

  // ------------------------------------------------------------------ the plain map

  /** The writes in order; the i-th write carries sequence number i + 1. */
  ghost predicate Numbered(h: seq<Entry>) {
    forall i :: 0 <= i < |h| ==> h[i].key.sequence == i + 1
  }

  /** The map left by a list of writes. */
  function Replay(h: seq<Entry>): map<UserKey, Value> {
    if h == [] then map[] else
    var m, e := Replay(h[..|h| - 1]), h[|h| - 1];
    if e.key.kind.TypeValue? then m[e.key.user := e.value] else m - {e.key.user}
  }

  /** Reading the map left by the writes up to sequence number `s`. */
  function ReadAt(h: seq<Entry>, k: UserKey, s: nat): Option<Value> {
    var m := Replay(if s < |h| then h[..s] else h);
    if k in m then Some(m[k]) else None
  }

  /** One more write changes the reads of its user key from its sequence number on. */
  lemma ReadAtStep(h: seq<Entry>, e: Entry, k: UserKey, s: nat)
    requires e.key.sequence == |h| + 1
    ensures ReadAt(h + [e], k, s) == if VisibleTo(e, k, s) then Shown(Some(e)) else ReadAt(h, k, s)
  {
    var g := h + [e];
    assert g[..|g| - 1] == h;
    if s <= |h| {
      assert g[..s] == h[..s];
      assert h[..|h|] == h;
    } else {
      assert Replay(g) == if e.key.kind.TypeValue? then Replay(h)[e.key.user := e.value] else Replay(h) - {e.key.user};
    }
  }

  /** The entry is one of the writes. */
  predicate Written(h: seq<Entry>, e: Entry) {
    1 <= e.key.sequence <= |h| && h[e.key.sequence - 1] == e
  }

  // ------------------------------------------------------------------ stored entries

  predicate VisibleTo(e: Entry, k: UserKey, s: nat) {
    e.key.user == k && e.key.sequence <= s
  }

  /** `r` is the newest entry of `k` with a sequence number up to `s`, or None if there is none. */
  ghost predicate Newest(es: set<Entry>, k: UserKey, s: nat, r: Option<Entry>) {
    && (r.None? ==> forall e :: e in es ==> !VisibleTo(e, k, s))
    && (r.Some? ==> r.value in es && VisibleTo(r.value, k, s) &&
                    forall e :: e in es && VisibleTo(e, k, s) ==> e.key.sequence <= r.value.key.sequence)
  }

  /** A deletion reads as absent. */
  function Shown(r: Option<Entry>): Option<Value> {
    if r.Some? && r.value.key.kind.TypeValue? then Some(r.value.value) else None
  }

  /** Every set of entries has a newest visible entry or none. */
  lemma {:induction false} NewestExists(es: set<Entry>, k: UserKey, s: nat) returns (r: Option<Entry>)
    ensures Newest(es, k, s, r)
    decreases es
  {
    r := None;
    if e :| e in es && VisibleTo(e, k, s) {
      var q := NewestExists(es - {e}, k, s);
      r := if q.None? || q.value.key.sequence < e.key.sequence then Some(e) else q;
      assert forall x :: x in es ==> x == e || x in es - {e};
    }
  }

  /** All entries of one user key have different sequence numbers. */
  ghost predicate Distinct(es: set<Entry>) {
    forall a, b :: a in es && b in es && a.key.user == b.key.user && a.key.sequence == b.key.sequence ==> a == b
  }

  lemma NewestUnique(es: set<Entry>, k: UserKey, s: nat, r: Option<Entry>, q: Option<Entry>)
    requires Distinct(es) && Newest(es, k, s, r) && Newest(es, k, s, q)
    ensures r == q
  {
    if r.Some? && q.Some? {
      assert r.value.key.sequence == q.value.key.sequence;
    }
  }

  lemma WrittenDistinct(h: seq<Entry>, es: set<Entry>)
    requires forall e :: e in es ==> Written(h, e)
    ensures Distinct(es)
  {
  }

  ghost function AllOf(r: seq<Entry>): set<Entry> {
    set e | e in r
  }

  /** The writes themselves, as a set of entries, answer every read as the map does. */
  lemma {:induction false} ReplayAnswers(h: seq<Entry>, k: UserKey, s: nat) returns (r: Option<Entry>)
    requires Numbered(h)
    ensures Newest(AllOf(h), k, s, r) && Shown(r) == ReadAt(h, k, s)
    decreases |h|
  {
    if h == [] {
      r := None;
    } else {
      var n := |h| - 1;
      var e := h[n];
      assert h == h[..n] + [e];
      assert forall x :: x in h <==> x in h[..n] || x == e;
      if n + 1 <= s && e.key.user == k {
        r := Some(e);
      } else {
        r := ReplayAnswers(h[..n], k, s);
        if s < |h| {
          assert h[..n][..s] == h[..s];
        }
      }
    }
  }

  lemma NewestExistsSome(es: set<Entry>, k: UserKey, s: nat)
    ensures exists r :: Newest(es, k, s, r)
  {
    var r := NewestExists(es, k, s);
  }

  ghost function NewestOf(es: set<Entry>, k: UserKey, s: nat): (r: Option<Entry>)
    ensures Newest(es, k, s, r)
  {
    NewestExistsSome(es, k, s);
    var r :| Newest(es, k, s, r);
    r
  }

  /** What a reader at `s` sees of the user key `k` in a set of entries. */
  ghost function Read(es: set<Entry>, k: UserKey, s: nat): Option<Value> {
    Shown(NewestOf(es, k, s))
  }

  lemma ReadIs(es: set<Entry>, k: UserKey, s: nat, r: Option<Entry>)
    requires Distinct(es) && Newest(es, k, s, r)
    ensures Read(es, k, s) == Shown(r)
  {
    NewestUnique(es, k, s, r, NewestOf(es, k, s));
  }

  /** The set of all writes reads as the map left by them. */
  lemma ReplayIsRead(h: seq<Entry>, k: UserKey, s: nat)
    requires Numbered(h)
    ensures Read(AllOf(h), k, s) == ReadAt(h, k, s)
  {
    var r := ReplayAnswers(h, k, s);
    WrittenDistinct(h, AllOf(h));
    ReadIs(AllOf(h), k, s, r);
  }
}
