/** What the rule that ends outputs amounts to: it settles how the kept inputs are cut, and
    no output reaches over more of the grandparents than the limit allows. */
module Outputs {
  import opened Keys
  import opened Files
  import opened Compactions
  import opened CompactionWork

  // ------------------------------------------------------------------ one way to cut

  lemma {:induction false} FlattenFront(outputs: seq<seq<Entry>>)
    requires outputs != []
    ensures Flatten(outputs) == outputs[0] + Flatten(outputs[1..])
    decreases |outputs|
  {
    hide Flatten;
    var n := |outputs| - 1;
    FlattenNone();
    FlattenLast(outputs);
    if n == 0 {
      assert outputs[..0] == [] && outputs[1..] == [];
    } else {
      FlattenFront(outputs[..n]);
      FlattenLast(outputs[1..]);
      assert outputs[..n][1..] == outputs[1..][..n - 1];
    }
  }

  lemma FlattenNone()
    ensures Flatten([]) == []
  {
  }

  /** An entry is one of the inputs. */
  lemma InputAt(c: seq<Entry>, e: Entry) returns (p: nat)
    requires e in c
    ensures p < |c| && c[p] == e
  {
    p :| 0 <= p < |c| && c[p] == e;
  }

  lemma InputsInOrder(c: seq<Entry>, p: nat, q: nat)
    requires Sorted(c) && p < |c| && q < |c| && Less(c[p].key, c[q].key)
    ensures p < q
  {
    SortedIndex(c, p, q);
  }

  /** The outputs after the first one are cut where they are due to end, too. */
  lemma CutRest(options: Options, g: seq<FileMeta>, c: seq<Entry>, fileSize: seq<Entry> -> nat, outputs: seq<seq<Entry>>)
    requires CutWhereDue(options, g, c, fileSize, outputs) && outputs != []
    ensures outputs[0] != [] && GoesOn(options, g, c, fileSize, outputs[0])
    ensures |outputs| > 1 ==> outputs[1] != [] && EndsDue(options, g, c, fileSize, outputs[0], outputs[1])
    ensures CutWhereDue(options, g, c, fileSize, outputs[1..])
  {
    hide GoesOn, EndsDue;
    var rest := outputs[1..];
    assert forall k :: 0 <= k < |rest| ==> rest[k] == outputs[k + 1];
  }

  /** Where an output goes on it is not due to end. */
  lemma NotDueAt(options: Options, g: seq<FileMeta>, c: seq<Entry>, fileSize: seq<Entry> -> nat, b: seq<Entry>, n: nat)
    returns (p: nat, q: nat)
    requires Sorted(c) && Sorted(b) && (forall e :: e in b ==> e in c) && GoesOn(options, g, c, fileSize, b) && 0 < n < |b|
    ensures p < q < |c| && c[p] == b[n - 1] && c[q] == b[n] && !Due(options, g, c, fileSize, b[..n], p, q)
  {
    hide Due, Sorted;
    assert b[n - 1] in b && b[n] in b;
    p := InputAt(c, b[n - 1]);
    q := InputAt(c, b[n]);
    SortedIndex(b, n - 1, n);
    InputsInOrder(c, p, q);
  }

  /** The kept inputs are cut in one way only. */
  lemma {:induction false} CutsDetermined(options: Options, g: seq<FileMeta>, c: seq<Entry>, fileSize: seq<Entry> -> nat,
                                          a: seq<seq<Entry>>, b: seq<seq<Entry>>)
    requires Sorted(c) && Sorted(Flatten(a)) && (forall e :: e in Flatten(a) ==> e in c) && Flatten(a) == Flatten(b)
    requires CutWhereDue(options, g, c, fileSize, a) && CutWhereDue(options, g, c, fileSize, b)
    ensures a == b
    decreases |a|
  {
    hide Sorted, Flatten, CutWhereDue, GoesOn, EndsDue;
    FlattenNone();
    if a == [] || b == [] {
      if a != [] {
        FlattenFront(a);
        CutRest(options, g, c, fileSize, a);
      }
      if b != [] {
        FlattenFront(b);
        CutRest(options, g, c, fileSize, b);
      }
    } else {
      CutRest(options, g, c, fileSize, a);
      CutRest(options, g, c, fileSize, b);
      FlattenFront(a);
      FlattenFront(b);
      FirstNotLonger(options, g, c, fileSize, a, b);
      FirstNotLonger(options, g, c, fileSize, b, a);
      var n := |a[0]|;
      assert a[0] == Flatten(a)[..n] && b[0] == Flatten(b)[..n];
      assert Flatten(a[1..]) == Flatten(a)[n..] && Flatten(b[1..]) == Flatten(b)[n..];
      SortedTail(Flatten(a), n);
      CutsDetermined(options, g, c, fileSize, a[1..], b[1..]);
      assert a == [a[0]] + a[1..] && b == [b[0]] + b[1..];
    }
  }

  lemma SortedTail(r: seq<Entry>, n: nat)
    requires Sorted(r) && n <= |r|
    ensures Sorted(r[..n]) && Sorted(r[n..])
  {
  }

  lemma FirstNotLonger(options: Options, g: seq<FileMeta>, c: seq<Entry>, fileSize: seq<Entry> -> nat,
                       a: seq<seq<Entry>>, b: seq<seq<Entry>>)
    requires Sorted(c) && Sorted(Flatten(a)) && (forall e :: e in Flatten(a) ==> e in c) && Flatten(a) == Flatten(b)
    requires a != [] && b != [] && CutWhereDue(options, g, c, fileSize, a) && CutWhereDue(options, g, c, fileSize, b)
    ensures |b[0]| <= |a[0]|
  {
    hide Sorted, Flatten, CutWhereDue, GoesOn, Due;
    CutRest(options, g, c, fileSize, a);
    CutRest(options, g, c, fileSize, b);
    FlattenFront(a);
    FlattenFront(b);
    FlattenNone();
    var r, n := Flatten(a), |a[0]|;
    if n < |b[0]| {
      SortedTail(r, |b[0]|);
      assert b[0] == r[..|b[0]|] && a[0] == r[..n];
      assert a[1..] != [];
      FlattenFront(a[1..]);
      assert a[1..][0] == a[1] && r[n] == a[1][0];
      assert b[0][..n] == a[0];
      var p, q := NotDueAt(options, g, c, fileSize, b[0], n);
      assert false;
    }
  }

  // ------------------------------------------------------------------ grandparents under one output

  lemma PassedGrows(g: seq<FileMeta>, a: InternalKey, b: InternalKey)
    requires Less(a, b)
    ensures PassedAt(g, a) <= PassedAt(g, b)
    ensures WeightAt(g, a) + TotalFileSize(g[PassedAt(g, a)..PassedAt(g, b)]) == WeightAt(g, b)
  {
    PassedParts(g, a);
    PassedParts(g, b);
    forall j | 0 <= j < PassedAt(g, a)
      ensures Less(g[j].largest, b)
    {
    }
    TotalSplit(g, PassedAt(g, a), PassedAt(g, b));
  }

  lemma WeightGrows(g: seq<FileMeta>, c: seq<Entry>, p: nat, q: nat)
    requires Sorted(c) && p <= q < |c|
    ensures PassedAt(g, c[p].key) <= PassedAt(g, c[q].key) && WeightAt(g, c[p].key) <= WeightAt(g, c[q].key)
    ensures TotalFileSize(g[PassedAt(g, c[p].key)..PassedAt(g, c[q].key)]) == WeightAt(g, c[q].key) - WeightAt(g, c[p].key)
  {
    hide WeightAt, PassedAt, TotalFileSize;
    if p < q {
      assert Less(c[p].key, c[q].key);
      PassedGrows(g, c[p].key, c[q].key);
    } else {
      TotalOfNone(g, PassedAt(g, c[p].key));
    }
  }

  /** Where nothing calls for a new output, little of the grandparents is passed. */
  lemma LittleBetween(options: Options, g: seq<FileMeta>, c: seq<Entry>, p: nat, q: nat)
    requires Sorted(c) && p <= q < |c| && !StopBetween(options, g, c, p, q)
    ensures WeightAt(g, c[q].key) - WeightAt(g, c[p].key) <= options.MaxGrandParentOverlapBytes()
  {
    hide WeightAt, Sorted;
    if p < q {
      LastStopIs(options, g, c, p, q);
      assert !StopsAt(options, g, c, q);
      NextStop(options, g, c, q);
      WeightGrows(g, c, LastStop(options, g, c, q), p);
    }
  }

  lemma NoneOver(options: Options, g: seq<FileMeta>, c: seq<Entry>, p: nat, m: nat, q: nat)
    requires p <= m <= q < |c| && !StopBetween(options, g, c, p, m) && !StopBetween(options, g, c, m, q)
    ensures !StopBetween(options, g, c, p, q)
  {
    hide StopsAt;
  }

  /** Within an output nothing calls for a new one. */
  lemma {:induction false} NoneWithin(options: Options, g: seq<FileMeta>, c: seq<Entry>, fileSize: seq<Entry> -> nat,
                                      o: seq<Entry>, n: nat, p: nat, q: nat)
    requires Sorted(c) && Sorted(o) && (forall e :: e in o ==> e in c) && GoesOn(options, g, c, fileSize, o)
    requires n < |o| && p <= q < |c| && c[p] == o[0] && c[q] == o[n]
    ensures !StopBetween(options, g, c, p, q)
    decreases n
  {
    hide Sorted, StopsAt;
    if n == 0 {
      DistinctInputs(c, p);
    } else {
      assert o[n - 1] in o;
      var m := InputAt(c, o[n - 1]);
      SortedIndex(o, n - 1, n);
      InputsInOrder(c, m, q);
      if n - 1 > 0 {
        SortedIndex(o, 0, n - 1);
        InputsInOrder(c, p, m);
      } else {
        DistinctInputs(c, p);
      }
      NoneWithin(options, g, c, fileSize, o, n - 1, p, m);
      NotDue(options, g, c, fileSize, o, n, m, q);
      NoneOver(options, g, c, p, m, q);
    }
  }

  lemma NotDue(options: Options, g: seq<FileMeta>, c: seq<Entry>, fileSize: seq<Entry> -> nat, o: seq<Entry>, n: nat, m: nat, q: nat)
    requires GoesOn(options, g, c, fileSize, o) && 0 < n < |o| && m < q < |c| && c[m] == o[n - 1] && c[q] == o[n]
    ensures !StopBetween(options, g, c, m, q)
  {
    hide StopBetween;
  }

  /** The grandparents that an output passes, from its first entry to its last, weigh at
      most the limit. */
  lemma OutputOverlapsLittle(options: Options, g: seq<FileMeta>, c: seq<Entry>, fileSize: seq<Entry> -> nat,
                             outputs: seq<seq<Entry>>, k: nat)
    requires CutWhereDue(options, g, c, fileSize, outputs) && k < |outputs|
    requires Sorted(c) && Sorted(outputs[k]) && forall e :: e in outputs[k] ==> e in c
    ensures outputs[k] != []
    ensures var first, last := outputs[k][0].key, outputs[k][|outputs[k]| - 1].key;
            && PassedAt(g, first) <= PassedAt(g, last)
            && TotalFileSize(g[PassedAt(g, first)..PassedAt(g, last)]) <= options.MaxGrandParentOverlapBytes()
  {
    hide Sorted, GoesOn, EndsDue, WeightAt, PassedAt, StopBetween, TotalFileSize;
    var o := outputs[k];
    var n := |o| - 1;
    assert o[0] in o && o[n] in o;
    var p := InputAt(c, o[0]);
    var q := InputAt(c, o[n]);
    if n > 0 {
      SortedIndex(o, 0, n);
      InputsInOrder(c, p, q);
    } else {
      DistinctInputs(c, p);
    }
    NoneWithin(options, g, c, fileSize, o, n, p, q);
    LittleBetween(options, g, c, p, q);
    WeightGrows(g, c, p, q);
  }
}
