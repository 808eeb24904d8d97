/** The merging iterator of table/merger.cc over several child cursors. */
module Merger {
  import opened Keys

  // ------------------------------------------------------------------ the merge of runs

  /** The sorted run `r` is part of the sorted run `contents`. */
  ghost predicate Within(r: seq<Entry>, contents: seq<Entry>) {
    && Sorted(r)
    && Sorted(contents)
    && forall j :: 0 <= j < |r| ==> r[j] in contents
  }

  ghost predicate HeldBySome(runs: seq<seq<Entry>>, e: Entry) {
    exists i :: 0 <= i < |runs| && e in runs[i]
  }

  /** `contents` is the sorted union of `runs`, and no entry occurs in two runs. */
  ghost predicate Interleaves(runs: seq<seq<Entry>>, contents: seq<Entry>) {
    && Sorted(contents)
    && (forall i {:trigger Within(runs[i], contents)} :: 0 <= i < |runs| ==> Within(runs[i], contents))
    && (forall p {:trigger HeldBySome(runs, contents[p])} :: 0 <= p < |contents| ==> HeldBySome(runs, contents[p]))
    && (forall i, j, e {:trigger e in runs[i], e in runs[j]} :: 0 <= i < j < |runs| && e in runs[i] ==> e !in runs[j])
  }

  /** How many entries of the run `r` lie among the first `p` entries of `contents`. */
  ghost function Passed(r: seq<Entry>, contents: seq<Entry>, p: nat): (n: nat)
    requires p <= |contents|
    ensures n <= |r|
  {
    if p == |contents| then |r| else LowerBound(r, contents[p].key)
  }

  /** The position of a cursor that stands on the last of the `n` entries passed. */
  function LastOf(n: nat, size: nat): nat {
    if n == 0 then size else n - 1
  }

  /** Where the j-th entry of `r` stands in `contents`. */
  ghost function At(r: seq<Entry>, contents: seq<Entry>, j: nat): (q: nat)
    requires Within(r, contents) && j < |r|
    ensures q < |contents| && contents[q] == r[j]
  {
    var q :| 0 <= q < |contents| && contents[q] == r[j];
    q
  }

  lemma PassedAt(r: seq<Entry>, contents: seq<Entry>, p: nat, j: nat)
    requires Within(r, contents) && p <= |contents| && j < |r|
    ensures j < Passed(r, contents, p) <==> At(r, contents, j) < p
  {
    var q := At(r, contents, j);
    if p < |contents| {
      LowerBoundSplits(r, contents[p].key);
      SortedIndex(contents, q, p);
    }
  }

  /** Passing contents[p] moves exactly a run that holds it, and by one. */
  lemma PassedStep(r: seq<Entry>, contents: seq<Entry>, p: nat)
    requires Within(r, contents) && p < |contents|
    ensures var n := Passed(r, contents, p);
            && (contents[p] in r ==> n < |r| && r[n] == contents[p])
            && Passed(r, contents, p + 1) == if contents[p] in r then n + 1 else n
  {
    var n, m := Passed(r, contents, p), Passed(r, contents, p + 1);
    forall j | 0 <= j < |r|
      ensures j < n <==> At(r, contents, j) < p
      ensures j < m <==> At(r, contents, j) < p + 1
      ensures r[j] == contents[p] <==> At(r, contents, j) == p
    {
      PassedAt(r, contents, p, j);
      PassedAt(r, contents, p + 1, j);
      if r[j] == contents[p] {
        SortedIndex(contents, At(r, contents, j), p);
        SortedIndex(contents, p, At(r, contents, j));
      }
    }
    if n + 1 < |r| {
      SortedIndex(r, n, n + 1);
    }
    assert n < |r| ==> (n < m <==> r[n] == contents[p]);
    assert n + 1 < |r| ==> r[n] != r[n + 1];
    assert m < |r| ==> !(At(r, contents, m) < p);
  }

  /** The run that holds contents[p] stands on it, and passing it moves no other run. */
  lemma PassedByOwner(runs: seq<seq<Entry>>, contents: seq<Entry>, c: nat, a: nat, p: nat)
    requires Interleaves(runs, contents) && p < |contents|
    requires c < |runs| && a < |runs[c]| && runs[c][a] == contents[p]
    ensures a == Passed(runs[c], contents, p)
    ensures forall i :: 0 <= i < |runs| ==>
              Passed(runs[i], contents, p + 1) == Passed(runs[i], contents, p) + if i == c then 1 else 0
  {
    forall i | 0 <= i < |runs|
      ensures Passed(runs[i], contents, p + 1) == Passed(runs[i], contents, p) + if i == c then 1 else 0
    {
      assert contents[p] in runs[c];
      assert contents[p] in runs[i] <==> i == c;
      PassedStep(runs[i], contents, p);
    }
    PassedStep(runs[c], contents, p);
    SortedIndex(runs[c], a, Passed(runs[c], contents, p));
    SortedIndex(runs[c], Passed(runs[c], contents, p), a);
  }

  lemma KeysDistinct(runs: seq<seq<Entry>>, contents: seq<Entry>, i: nat, a: nat, j: nat, b: nat)
    requires Interleaves(runs, contents) && i < |runs| && j < |runs| && i != j
    requires a < |runs[i]| && b < |runs[j]|
    ensures runs[i][a].key != runs[j][b].key
  {
    assert runs[i][a] in runs[i] && runs[j][b] in runs[j];
    var p, q := At(runs[i], contents, a), At(runs[j], contents, b);
    SortedIndex(contents, p, q);
    SortedIndex(contents, q, p);
  }

  /** Before the end of the union some run stands on the next entry. */
  lemma SomeLeft(runs: seq<seq<Entry>>, contents: seq<Entry>, p: nat) returns (i: nat)
    requires Interleaves(runs, contents) && p < |contents|
    ensures i < |runs| && Passed(runs[i], contents, p) < |runs[i]|
    ensures runs[i][Passed(runs[i], contents, p)] == contents[p]
  {
    assert HeldBySome(runs, contents[p]);
    i :| 0 <= i < |runs| && contents[p] in runs[i];
    PassedStep(runs[i], contents, p);
  }

  /** After the start of the union some run has just passed the last entry. */
  lemma SomePassed(runs: seq<seq<Entry>>, contents: seq<Entry>, p: nat) returns (i: nat)
    requires Interleaves(runs, contents) && 0 < p <= |contents|
    ensures i < |runs| && 0 < Passed(runs[i], contents, p)
    ensures runs[i][Passed(runs[i], contents, p) - 1] == contents[p - 1]
  {
    assert HeldBySome(runs, contents[p - 1]);
    i :| 0 <= i < |runs| && contents[p - 1] in runs[i];
    PassedStep(runs[i], contents, p - 1);
  }

  /** Among the entries just after the first p of the union, the least is contents[p]. */
  lemma LeastIsNext(runs: seq<seq<Entry>>, contents: seq<Entry>, p: nat, i: nat)
    requires Interleaves(runs, contents) && p <= |contents| && i < |runs|
    requires Passed(runs[i], contents, p) < |runs[i]|
    requires forall j :: 0 <= j < |runs| && Passed(runs[j], contents, p) < |runs[j]| ==>
               !Less(runs[j][Passed(runs[j], contents, p)].key, runs[i][Passed(runs[i], contents, p)].key)
    ensures p < |contents| && runs[i][Passed(runs[i], contents, p)] == contents[p]
  {
    var q := At(runs[i], contents, Passed(runs[i], contents, p));
    PassedAt(runs[i], contents, p, Passed(runs[i], contents, p));
    var j := SomeLeft(runs, contents, p);
    SortedIndex(contents, p, q);
  }

  /** Among the last entries of the first p of the union, the greatest is contents[p - 1]. */
  lemma GreatestIsLast(runs: seq<seq<Entry>>, contents: seq<Entry>, p: nat, i: nat)
    requires Interleaves(runs, contents) && p <= |contents| && i < |runs|
    requires 0 < Passed(runs[i], contents, p)
    requires forall j :: 0 <= j < |runs| && 0 < Passed(runs[j], contents, p) ==>
               !Less(runs[i][Passed(runs[i], contents, p) - 1].key, runs[j][Passed(runs[j], contents, p) - 1].key)
    ensures 0 < p && runs[i][Passed(runs[i], contents, p) - 1] == contents[p - 1]
  {
    var q := At(runs[i], contents, Passed(runs[i], contents, p) - 1);
    PassedAt(runs[i], contents, p, Passed(runs[i], contents, p) - 1);
    var j := SomePassed(runs, contents, p);
    SortedIndex(contents, q, p - 1);
  }

  /** Seeking a run to t passes exactly its entries among those of the union before t. */
  lemma SeekPasses(r: seq<Entry>, contents: seq<Entry>, t: InternalKey)
    requires Within(r, contents)
    ensures Passed(r, contents, LowerBound(contents, t)) == LowerBound(r, t)
  {
    var p := LowerBound(contents, t);
    LowerBoundSplits(contents, t);
    LowerBoundSplits(r, t);
    forall j | 0 <= j < |r|
      ensures j < Passed(r, contents, p) <==> Less(r[j].key, t)
    {
      PassedAt(r, contents, p, j);
    }
    var n, m := Passed(r, contents, p), LowerBound(r, t);
    assert n < |r| ==> !Less(r[n].key, t);
    assert m < |r| ==> !Less(r[m].key, t);
  }

  // ------------------------------------------------------------------ child cursors

  /** A child iterator: a cursor over a sorted run.  As in LevelFileNumIterator the
      position |entries| is the one invalid position, reached from either end. */
  class Cursor {
    const entries: seq<Entry>
    var pos: nat

    constructor (entries: seq<Entry>)
      ensures this.entries == entries && pos == |entries|
    {
      this.entries, pos := entries, |entries|;
    }

    predicate Valid()
      reads this
    {
      pos < |entries|
    }

    function Current(): Entry
      requires Valid()
      reads this
    {
      entries[pos]
    }

    method SeekToFirst()
      modifies this
      ensures pos == 0
    {
      pos := 0;
    }

    method SeekToLast()
      modifies this
      ensures pos == LastOf(|entries|, |entries|)
    {
      pos := if entries == [] then 0 else |entries| - 1;
    }

    method Seek(t: InternalKey)
      modifies this
      ensures pos == LowerBound(entries, t)
    {
      pos := LowerBound(entries, t);
    }

    method Next()
      requires Valid()
      modifies this
      ensures pos == old(pos) + 1
    {
      pos := pos + 1;
    }

    method Prev()
      requires Valid()
      modifies this
      ensures pos == LastOf(old(pos), |entries|)
    {
      if pos == 0 {
        pos := |entries|;
      } else {
        pos := pos - 1;
      }
    }
  }

  // ------------------------------------------------------------------ the merging iterator

  datatype Direction = Forward | Reverse

  /** Refines a cursor over `contents`, the sorted union of the children: `pos` is
      the abstract position, and |contents| is its one invalid value. */
  class MergingIterator {
    const children: seq<Cursor>
    var current: Option<nat>
    var direction: Direction
    ghost const contents: seq<Entry>
    ghost var pos: nat

    ghost function Runs(): (r: seq<seq<Entry>>)
      ensures |r| == |children| && forall i :: 0 <= i < |r| ==> r[i] == children[i].entries
    {
      seq(|children|, i requires 0 <= i < |children| => children[i].entries)
    }

    /** What never changes: the children are distinct objects whose runs interleave. */
    ghost predicate Shape() {
      && Interleaves(Runs(), contents)
      && (forall i, j :: 0 <= i < j < |children| ==> children[i] != children[j])
    }

    ghost function Repr(): (r: set<object>)
      ensures this in r && forall i :: 0 <= i < |children| ==> children[i] in r
    {
      {this} + set i | 0 <= i < |children| :: children[i] as object
    }

    /** Every child stands on its first entry outside the first p of the union. */
    ghost predicate AheadOf(p: nat)
      requires p <= |contents|
      reads Repr()
    {
      forall i :: 0 <= i < |children| ==> children[i].pos == Passed(children[i].entries, contents, p)
    }

    /** Every child stands on its last entry inside the first p of the union. */
    ghost predicate BehindOf(p: nat)
      requires p <= |contents|
      reads Repr()
    {
      forall i :: 0 <= i < |children| ==>
        children[i].pos == LastOf(Passed(children[i].entries, contents, p), |children[i].entries|)
    }

    /** The representation invariant: the current child holds the current entry,
        and the others are past it or before it, depending on the direction. */
    ghost predicate Ok()
      reads Repr()
      ensures Ok() ==> pos <= |contents| && (Valid() <==> pos < |contents|)
    {
      && Shape()
      && pos <= |contents|
      && (current.None? <==> pos == |contents|)
      && (pos < |contents| ==>
            && current.value < |children|
            && children[current.value].Valid()
            && children[current.value].Current() == contents[pos]
            && (direction.Forward? ==> AheadOf(pos))
            && (direction.Reverse? ==> BehindOf(pos + 1)))
    }

    constructor (children: seq<Cursor>, ghost contents: seq<Entry>)
      requires Interleaves(seq(|children|, i requires 0 <= i < |children| => children[i].entries), contents)
      requires forall i, j :: 0 <= i < j < |children| ==> children[i] != children[j]
      ensures this.children == children && this.contents == contents
      ensures Ok() && pos == |contents|
    {
      this.children, this.contents := children, contents;
      current, direction, pos := None, Forward, |contents|;
      new;
      assert Runs() == seq(|children|, i requires 0 <= i < |children| => children[i].entries);
    }

    predicate Valid()
      reads this
    {
      current.Some?
    }

    function Current(): (e: Entry)
      requires Ok() && Valid()
      reads Repr()
      ensures e == contents[pos]
    {
      children[current.value].Current()
    }

    /** The current child stands on the least entry of all valid children. */
    ghost predicate OnSmallest()
      reads Repr()
    {
      && (current.None? ==> forall i :: 0 <= i < |children| ==> !children[i].Valid())
      && (current.Some? ==>
            && current.value < |children| && children[current.value].Valid()
            && forall i :: 0 <= i < |children| && children[i].Valid() ==>
                 !Less(children[i].Current().key, children[current.value].Current().key))
    }

    /** The current child stands on the greatest entry of all valid children. */
    ghost predicate OnLargest()
      reads Repr()
    {
      && (current.None? ==> forall i :: 0 <= i < |children| ==> !children[i].Valid())
      && (current.Some? ==>
            && current.value < |children| && children[current.value].Valid()
            && forall i :: 0 <= i < |children| && children[i].Valid() ==>
                 !Less(children[current.value].Current().key, children[i].Current().key))
    }

    lemma SmallestIsNext(p: nat)
      requires Shape() && p <= |contents| && AheadOf(p) && OnSmallest()
      ensures current.None? <==> p == |contents|
      ensures p < |contents| ==> children[current.value].Current() == contents[p]
    {
      if current.Some? {
        LeastIsNext(Runs(), contents, p, current.value);
      } else if p < |contents| {
        var i := SomeLeft(Runs(), contents, p);
      }
    }

    lemma LargestIsLast(p: nat)
      requires Shape() && p <= |contents| && BehindOf(p) && OnLargest()
      ensures current.None? <==> p == 0
      ensures 0 < p ==> children[current.value].Current() == contents[p - 1]
    {
      if current.Some? {
        GreatestIsLast(Runs(), contents, p, current.value);
      } else if 0 < p {
        var i := SomePassed(Runs(), contents, p);
      }
    }

    method FindSmallest()
      modifies this`current
      ensures OnSmallest()
    {
      var smallest: Option<nat> := None;
      for i := 0 to |children|
        invariant smallest.Some? ==> smallest.value < i && children[smallest.value].Valid()
        invariant forall j :: 0 <= j < i && children[j].Valid() ==>
                    smallest.Some? && !Less(children[j].Current().key, children[smallest.value].Current().key)
      {
        if children[i].Valid() {
          if smallest.None? {
            smallest := Some(i);
          } else if Less(children[i].Current().key, children[smallest.value].Current().key) {
            smallest := Some(i);
          }
        }
      }
      current := smallest;
    }

    method FindLargest()
      modifies this`current
      ensures OnLargest()
    {
      var largest: Option<nat> := None;
      for i := |children| downto 0
        invariant largest.Some? ==> i <= largest.value < |children| && children[largest.value].Valid()
        invariant forall j :: i <= j < |children| && children[j].Valid() ==>
                    largest.Some? && !Less(children[largest.value].Current().key, children[j].Current().key)
      {
        if children[i].Valid() {
          if largest.None? {
            largest := Some(i);
          } else if Less(children[largest.value].Current().key, children[i].Current().key) {
            largest := Some(i);
          }
        }
      }
      current := largest;
    }

    method SeekToFirst()
      requires Ok()
      modifies Repr()
      ensures Ok() && pos == 0
    {
      for i := 0 to |children|
        invariant forall j :: 0 <= j < i ==> children[j].pos == 0
      {
        children[i].SeekToFirst();
      }
      direction := Forward;
      forall i | 0 <= i < |children|
        ensures Passed(children[i].entries, contents, 0) == 0
      {
        var r := Runs()[i];
        if r != [] {
          PassedAt(r, contents, 0, 0);
        }
      }
      FindSmallest();
      SmallestIsNext(0);
      pos := 0;
    }

    method SeekToLast()
      requires Ok()
      modifies Repr()
      ensures Ok() && pos == LastOf(|contents|, |contents|)
    {
      hide Interleaves, Sorted;
      for i := 0 to |children|
        invariant forall j :: 0 <= j < i ==> children[j].pos == LastOf(|children[j].entries|, |children[j].entries|)
      {
        children[i].SeekToLast();
      }
      direction := Reverse;
      FindLargest();
      LargestIsLast(|contents|);
      pos := LastOf(|contents|, |contents|);
    }

    method Seek(t: InternalKey)
      requires Ok()
      modifies Repr()
      ensures Ok() && pos == LowerBound(contents, t)
    {
      for i := 0 to |children|
        invariant forall j :: 0 <= j < i ==> children[j].pos == LowerBound(Runs()[j], t)
      {
        children[i].Seek(t);
      }
      direction := Forward;
      forall i | 0 <= i < |children|
        ensures Passed(Runs()[i], contents, LowerBound(contents, t)) == LowerBound(Runs()[i], t)
      {
        SeekPasses(Runs()[i], contents, t);
      }
      FindSmallest();
      SmallestIsNext(LowerBound(contents, t));
      pos := LowerBound(contents, t);
    }

    /** Next's direction switch: every child but the current one goes past the current key. */
    method TurnForward()
      requires Ok() && Valid() && direction == Reverse
      modifies Repr() - {children[current.value]}, this`direction
      ensures Ok() && pos == old(pos) && current == old(current) && direction == Forward
    {
      hide Within, Sorted, LowerBound;
      var cur := children[current.value];
      var key := cur.Current().key;
      PassedByOwner(Runs(), contents, current.value, cur.pos, pos);
      for i := 0 to |children|
        modifies Repr() - {cur, this}
        invariant forall j :: 0 <= j < i ==> children[j].pos == Passed(Runs()[j], contents, pos)
      {
        if i != current.value {
          children[i].Seek(key);
          if children[i].Valid() {
            KeysDistinct(Runs(), contents, current.value, cur.pos, i, children[i].pos);
            if key == children[i].Current().key {
              assert false;  // LevelDB steps past an equal key, but keys are distinct
            }
          }
        }
      }
      direction := Forward;
    }

    /** Prev's direction switch: every child but the current one goes before the current key. */
    method TurnReverse()
      requires Ok() && Valid() && direction == Forward
      modifies Repr() - {children[current.value]}, this`direction
      ensures Ok() && pos == old(pos) && current == old(current) && direction == Reverse
    {
      hide Within, Sorted, LowerBound;
      var cur := children[current.value];
      var key := cur.Current().key;
      PassedByOwner(Runs(), contents, current.value, cur.pos, pos);
      for i := 0 to |children|
        modifies Repr() - {cur, this}
        invariant forall j :: 0 <= j < i ==>
                    children[j].pos == LastOf(Passed(Runs()[j], contents, pos + 1), |Runs()[j]|)
      {
        if i != current.value {
          children[i].Seek(key);
          if children[i].Valid() {
            children[i].Prev();
          } else {
            children[i].SeekToLast();
          }
        }
      }
      direction := Reverse;
    }

    /** Next, once the direction is forward. */
    method Advance()
      requires Ok() && Valid() && direction == Forward
      modifies Repr()
      ensures Ok() && pos == old(pos) + 1
    {
      hide Interleaves, Sorted, LowerBound, Passed;
      PassCurrent();
      FindSmallest();
      assert AheadOf(pos + 1);
      SmallestIsNext(pos + 1);
      pos := pos + 1;
    }

    /** Moves the current child past the current entry. */
    method PassCurrent()
      requires Ok() && Valid() && direction == Forward
      modifies children[current.value]
      ensures Shape() && AheadOf(pos + 1)
    {
      hide Interleaves, Sorted, LowerBound, Passed;
      PassedByOwner(Runs(), contents, current.value, children[current.value].pos, pos);
      children[current.value].Next();
    }

    /** Prev, once the direction is reverse. */
    method Retreat()
      requires Ok() && Valid() && direction == Reverse
      modifies Repr()
      ensures Ok() && pos == LastOf(old(pos), |contents|)
    {
      hide Interleaves, Sorted, LowerBound, Passed;
      LeaveCurrent();
      FindLargest();
      assert BehindOf(pos);
      LargestIsLast(pos);
      pos := LastOf(pos, |contents|);
    }

    /** Moves the current child back before the current entry. */
    method LeaveCurrent()
      requires Ok() && Valid() && direction == Reverse
      modifies children[current.value]
      ensures Shape() && BehindOf(pos)
    {
      hide Interleaves, Sorted, LowerBound, Passed;
      PassedByOwner(Runs(), contents, current.value, children[current.value].pos, pos);
      children[current.value].Prev();
    }

    method Next()
      requires Ok() && Valid()
      modifies Repr()
      ensures Ok() && pos == old(pos) + 1
    {
      if direction != Forward {
        TurnForward();
      }
      Advance();
    }

    method Prev()
      requires Ok() && Valid()
      modifies Repr()
      ensures Ok() && pos == LastOf(old(pos), |contents|)
    {
      if direction != Reverse {
        TurnReverse();
      }
      Retreat();
    }
  }
}
