/** When a compaction preserves what readers see. */
module Reads {
  import opened Keys
  import opened History
  import opened Files
  import opened Compactions
  import opened CompactionWork
  import opened Lsm
  import opened Install

  // ------------------------------------------------------------------ dropping entries from a set

  /** The input entries are thinned out to `output` by the two drop rules, beside the
      entries `rest` of all other places.  `left` are those of the lower level's files
      that are not inputs, and the user keys of `base` have no entry further down. */
  ghost predicate Thinned(rest: set<Entry>, left: set<Entry>, input: set<Entry>, output: set<Entry>,
                          s: SequenceNumber, base: iset<UserKey>)
  {
    && left <= rest && output <= input
    && (forall x, d :: x in rest && d in input && x.key.user == d.key.user ==>
          x.key.sequence > d.key.sequence || x in left || d.key.user !in base)
    && (forall p, d :: p in input && d in input && p.key.user == d.key.user && d.key.sequence < p.key.sequence <= s
          ==> d !in output)
    && (forall e :: e in input && ObsoleteIn(e, s, base) ==> e !in output)
    && (forall e :: e in input && e !in output ==> HiddenIn(e, input, s) || ObsoleteIn(e, s, base))
  }

  ghost predicate ObsoleteIn(e: Entry, s: SequenceNumber, base: iset<UserKey>) {
    e.key.kind.TypeDeletion? && e.key.sequence <= s && e.key.user in base
  }

  ghost predicate HiddenIn(e: Entry, input: set<Entry>, s: SequenceNumber) {
    exists p :: p in input && p.key.user == e.key.user && e.key.sequence < p.key.sequence <= s
  }

  /** The condition on one user key: if the oldest reader sees a deletion among the
      inputs that will be dropped, then no value comes to light in the files of the
      lower level that were left out. */
  ghost predicate SafeKey(rest: set<Entry>, left: set<Entry>, input: set<Entry>,
                          s: SequenceNumber, base: iset<UserKey>, k: UserKey)
  {
    var n := NewestOf(rest + input, k, s);
    n.Some? && n.value in input && ObsoleteIn(n.value, s, base) ==> Shown(NewestOf(left, k, s)) == None
  }

  /** Every reader at or above `s` sees the same in both sets. */
  ghost predicate SameReads(a: set<Entry>, b: set<Entry>, s: SequenceNumber) {
    forall k, r :: s <= r ==> Read(a, k, r) == Read(b, k, r)
  }

  /** The newest visible entry survives unless it is an obsolete deletion. */
  lemma SurvivorReads(rest: set<Entry>, left: set<Entry>, input: set<Entry>, output: set<Entry>,
                      s: SequenceNumber, base: iset<UserKey>, k: UserKey, r: nat)
    requires Thinned(rest, left, input, output, s, base) && Distinct(rest + input) && s <= r
    requires var n := NewestOf(rest + input, k, r);
             n.None? || n.value in rest || !ObsoleteIn(n.value, s, base)
    ensures Read(rest + input, k, r) == Read(rest + output, k, r)
  {
    var n := NewestOf(rest + input, k, r);
    assert n.Some? && n.value !in rest ==> n.value in output;
    assert Newest(rest + output, k, r, n);
    ReadIs(rest + output, k, r, n);
  }

  /** Behind a dropped deletion only the files left out of the lower level can answer. */
  lemma BehindDeletion(rest: set<Entry>, left: set<Entry>, input: set<Entry>, output: set<Entry>,
                       s: SequenceNumber, base: iset<UserKey>, k: UserKey, r: nat, n: Entry)
    requires Thinned(rest, left, input, output, s, base) && Distinct(rest + input) && s <= r
    requires Newest(rest + input, k, r, Some(n)) && n !in rest && n in input && ObsoleteIn(n, s, base)
    ensures Newest(rest + input, k, s, Some(n))
    ensures Read(rest + input, k, r) == None
    ensures Read(rest + output, k, r) == Shown(NewestOf(left, k, s))
  {
    ReadIs(rest + input, k, r, Some(n));
    var q := NewestOf(left, k, s);
    forall x | x in rest + output && VisibleTo(x, k, r)
      ensures x in left && x.key.sequence <= s
    {
      assert x in rest + input;
    }
    assert Newest(rest + output, k, r, q);
    ReadIs(rest + output, k, r, q);
  }

  /** A compaction preserves the reads of all readers at or above the smallest snapshot
      if and only if every user key is safe. */
  lemma SafeIffSameReads(rest: set<Entry>, left: set<Entry>, input: set<Entry>, output: set<Entry>,
                         s: SequenceNumber, base: iset<UserKey>)
    requires Thinned(rest, left, input, output, s, base) && Distinct(rest + input) && rest !! input
    ensures (forall k :: SafeKey(rest, left, input, s, base, k)) <==> SameReads(rest + input, rest + output, s)
  {
    if forall k :: SafeKey(rest, left, input, s, base, k) {
      forall k, r: nat | s <= r
        ensures Read(rest + input, k, r) == Read(rest + output, k, r)
      {
        var n := NewestOf(rest + input, k, r);
        if n.None? || n.value in rest || !ObsoleteIn(n.value, s, base) {
          SurvivorReads(rest, left, input, output, s, base, k, r);
        } else {
          BehindDeletion(rest, left, input, output, s, base, k, r, n.value);
          NewestUnique(rest + input, k, s, n, NewestOf(rest + input, k, s));
          assert SafeKey(rest, left, input, s, base, k);
        }
      }
    }
    if k :| !SafeKey(rest, left, input, s, base, k) {
      BehindDeletion(rest, left, input, output, s, base, k, s, NewestOf(rest + input, k, s).value);
    }
  }

  // ------------------------------------------------------------------ the entries of a compaction

  /** The user keys that no file two or more levels below spans. */
  ghost function BaseKeys(v: Version, level: nat): iset<UserKey>
    requires |v| == NUM_LEVELS
  {
    iset k | BaseLevel(v, level, k)
  }

  /** The entries of the files that are not inputs. */
  ghost function StayingEntries(t: Tables, v: Version, c: Inputs): set<Entry> {
    set l, f, e | 0 <= l < |v| && f in v[l] && Stays(v, c, l, f) && e in Run(t, f) :: e
  }

  /** The entries of the lower level's files that are not inputs. */
  ghost function LeftEntries(t: Tables, v: Version, c: Inputs): set<Entry>
    requires c.level + 1 < |v|
  {
    set f, e | f in v[c.level + 1] && f !in c.inputs1 && e in Run(t, f) :: e
  }

  /** What a compaction reads: all its entries in order, and the writes they come from. */
  ghost predicate Compacting(h: seq<Entry>, t: Tables, v: Version, c: Inputs, contents: seq<Entry>) {
    && VersionOk(t, v) && InputsOk(v, c) && VersionWritten(h, t, v)
    && Sorted(contents) && AllOf(contents) == InputEntries(t, c)
  }

  lemma InputWritten(h: seq<Entry>, t: Tables, v: Version, c: Inputs, e: Entry)
    requires VersionWritten(h, t, v) && InputsOk(v, c) && e in InputEntries(t, c)
    ensures Written(h, e)
  {
    InputsInLevels(v, c);
    if e in FilesEntries(t, c.inputs0) {
      var f :| f in c.inputs0 && e in Run(t, f);
      assert RunWritten(h, Run(t, f));
    } else {
      var f :| f in c.inputs1 && e in Run(t, f);
      assert RunWritten(h, Run(t, f));
    }
  }

  /** An entry that stays is newer than every input entry of its user key, or was left
      out of the lower level, or shows that the user key is not a base key. */
  lemma StayingBeside(h: seq<Entry>, t: Tables, v: Version, c: Inputs, x: Entry, d: Entry)
    requires VersionOk(t, v) && InputsOk(v, c) && VersionWritten(h, t, v)
    requires x in StayingEntries(t, v, c) && d in InputEntries(t, c) && x.key.user == d.key.user
    ensures x.key.sequence > d.key.sequence || x in LeftEntries(t, v, c) || d.key.user !in BaseKeys(v, c.level)
  {
    hide VersionOk, InputsOk, VersionWritten, StayingEntries, LeftEntries, InputEntries, FileOk, BaseLevel;
    InputsInLevels(v, c);
    var l, f := StayingFile(t, v, c, x);
    VersionFile(h, t, v, l, f);
    StayingVersion(h, t, v, c, l, f, x, d);
    if l >= c.level + 2 {
      DeepIsNotBase(t, v, c, l, f, x);
    } else if l == c.level + 1 {
      InLeft(t, v, c, f, x);
    }
  }

  lemma StayingFile(t: Tables, v: Version, c: Inputs, x: Entry) returns (l: nat, f: FileMeta)
    requires x in StayingEntries(t, v, c)
    ensures l < |v| && f in v[l] && Stays(v, c, l, f) && x in Run(t, f)
  {
    l, f :| 0 <= l < |v| && f in v[l] && Stays(v, c, l, f) && x in Run(t, f);
  }

  lemma StayingVersion(h: seq<Entry>, t: Tables, v: Version, c: Inputs, l: nat, g: FileMeta, x: Entry, d: Entry)
    requires VersionOk(t, v) && InputsOk(v, c) && VersionWritten(h, t, v)
    requires l < |v| && Stays(v, c, l, g) && x in Run(t, g) && d in InputEntries(t, c) && x.key.user == d.key.user
    ensures l <= c.level ==> x.key.sequence > d.key.sequence
  {
    hide InputsOk, VersionWritten, InputEntries, FileOk, LevelsOk, SortedFiles, UniqueNumbers;
    StayingOrdered(h, t, v, c, l, g, x, d);
  }

  lemma DeepIsNotBase(t: Tables, v: Version, c: Inputs, l: nat, f: FileMeta, x: Entry)
    requires |v| == NUM_LEVELS && c.level + 2 <= l < NUM_LEVELS && f in v[l] && FileOk(t, f) && x in Run(t, f)
    ensures x.key.user !in BaseKeys(v, c.level)
  {
    EntryWithin(t, f, x);
    assert Spans(f, x.key.user);
  }

  lemma InLeft(t: Tables, v: Version, c: Inputs, f: FileMeta, x: Entry)
    requires c.level + 1 < |v| && Stays(v, c, c.level + 1, f) && x in Run(t, f)
    ensures x in LeftEntries(t, v, c)
  {
  }

  /** A hidden entry has an adjacent newer one; an entry with a newer one that every
      reader sees is hidden. */
  lemma HiddenIff(h: seq<Entry>, contents: seq<Entry>, s: SequenceNumber, i: nat)
    requires Sorted(contents) && i < |contents| && (forall e :: e in contents ==> Written(h, e))
    ensures Hidden(contents, s, i) <==> HiddenIn(contents[i], AllOf(contents), s)
  {
    var e := contents[i];
    if Hidden(contents, s, i) {
      var p := contents[i - 1];
      assert Less(p.key, e.key) && Written(h, p) && Written(h, e);
      assert p in AllOf(contents);
    }
    if HiddenIn(e, AllOf(contents), s) {
      var p :| p in AllOf(contents) && p.key.user == e.key.user && e.key.sequence < p.key.sequence <= s;
      var j :| 0 <= j < |contents| && contents[j] == p;
      SortedIndex(contents, j, i);
      assert j == i - 1 || Less(p.key, contents[i - 1].key);
      assert Less(contents[i - 1].key, e.key);
    }
  }

  lemma {:induction false} KeptIff(contents: seq<Entry>, s: SequenceNumber, v: Version, level: nat, n: nat, i: nat)
    requires Sorted(contents) && n <= |contents| && i < |contents| && |v| == NUM_LEVELS
    ensures contents[i] in Kept(contents, s, v, level, n) <==> i < n && !Dropped(contents, s, v, level, i)
    ensures forall e :: e in Kept(contents, s, v, level, n) ==> e in contents
    decreases n
  {
    if n > 0 {
      KeptIff(contents, s, v, level, n - 1, i);
      SortedIndex(contents, i, n - 1);
      SortedIndex(contents, n - 1, i);
    }
  }

  /** The kept entries are the input entries thinned out. */
  lemma CompactionThins(h: seq<Entry>, newer: set<Entry>, t: Tables, v: Version, c: Inputs,
                        contents: seq<Entry>, s: SequenceNumber)
    requires Compacting(h, t, v, c, contents)
    requires AboveAll(newer, InputEntries(t, c))
    ensures Thinned(newer + StayingEntries(t, v, c), LeftEntries(t, v, c), InputEntries(t, c),
                    AllOf(Kept(contents, s, v, c.level, |contents|)), s, BaseKeys(v, c.level))
  {
    var input, output := InputEntries(t, c), AllOf(Kept(contents, s, v, c.level, |contents|));
    var rest, left, base := newer + StayingEntries(t, v, c), LeftEntries(t, v, c), BaseKeys(v, c.level);
    hide VersionOk, InputsOk, Sorted, LeftEntries, StayingEntries, BaseLevel;
    forall e | e in input
      ensures e in output <==> !(HiddenIn(e, input, s) || ObsoleteIn(e, s, base))
    {
      KeptMember(h, t, v, c, contents, s, e);
    }
    forall e | e in output
      ensures e in input
    {
      KeptFromInput(h, t, v, c, contents, s, e);
    }
    LeftStays(t, v, c);
    forall x, d | x in rest && d in input && x.key.user == d.key.user
      ensures x.key.sequence > d.key.sequence || x in left || d.key.user !in base
    {
      if x !in newer {
        StayingBeside(h, t, v, c, x, d);
      }
    }
  }

  lemma LeftStays(t: Tables, v: Version, c: Inputs)
    requires c.level + 1 < |v|
    ensures LeftEntries(t, v, c) <= StayingEntries(t, v, c)
  {
    forall e | e in LeftEntries(t, v, c)
      ensures e in StayingEntries(t, v, c)
    {
      var f :| f in v[c.level + 1] && f !in c.inputs1 && e in Run(t, f);
      assert Stays(v, c, c.level + 1, f);
    }
  }

  lemma KeptMember(h: seq<Entry>, t: Tables, v: Version, c: Inputs, contents: seq<Entry>, s: SequenceNumber, e: Entry)
    requires Compacting(h, t, v, c, contents) && e in InputEntries(t, c)
    ensures e in Kept(contents, s, v, c.level, |contents|) <==>
            !(HiddenIn(e, InputEntries(t, c), s) || ObsoleteIn(e, s, BaseKeys(v, c.level)))
  {
    forall x | x in contents
      ensures Written(h, x)
    {
      assert x in AllOf(contents);
      InputWritten(h, t, v, c, x);
    }
    assert e in AllOf(contents);
    var i :| 0 <= i < |contents| && contents[i] == e;
    HiddenIff(h, contents, s, i);
    KeptIff(contents, s, v, c.level, |contents|, i);
  }

  lemma KeptFromInput(h: seq<Entry>, t: Tables, v: Version, c: Inputs, contents: seq<Entry>, s: SequenceNumber, e: Entry)
    requires Compacting(h, t, v, c, contents) && e in Kept(contents, s, v, c.level, |contents|)
    ensures e in InputEntries(t, c)
  {
    if contents != [] {
      KeptIff(contents, s, v, c.level, |contents|, 0);
    }
    assert e in AllOf(contents);
  }

  // ------------------------------------------------------------------ before and after

  /** Before the compaction the version holds the entries that stay and the inputs. */
  lemma EntriesBefore(t: Tables, v: Version, c: Inputs)
    requires InputsOk(v, c)
    ensures LevelsEntries(t, v) == StayingEntries(t, v, c) + InputEntries(t, c)
  {
    InputsInLevels(v, c);
    hide InputsOk;
    forall e | e in LevelsEntries(t, v)
      ensures e in StayingEntries(t, v, c) + InputEntries(t, c)
    {
      var l, f :| 0 <= l < |v| && f in v[l] && e in Run(t, f);
      if !Stays(v, c, l, f) {
        assert f in c.inputs0 || f in c.inputs1;
        assert e in FilesEntries(t, c.inputs0) || e in FilesEntries(t, c.inputs1);
      }
    }
    forall e | e in InputEntries(t, c)
      ensures e in LevelsEntries(t, v)
    {
      if e in FilesEntries(t, c.inputs0) {
        var f :| f in c.inputs0 && e in Run(t, f);
        assert f in v[c.level];
      } else {
        var f :| f in c.inputs1 && e in Run(t, f);
        assert f in v[c.level + 1];
      }
    }
  }

  /** After it, the entries that stay and the outputs. */
  lemma EntriesAfter(t: Tables, v: Version, t': Tables, v': Version, c: Inputs, outs: seq<FileMeta>)
    requires Sunk(v, v', c, outs) && SameRuns(t, t', v)
    ensures LevelsEntries(t', v') == StayingEntries(t, v, c) + FilesEntries(t', outs)
  {
    hide SortedFiles;
    forall e | e in LevelsEntries(t', v')
      ensures e in StayingEntries(t, v, c) + FilesEntries(t', outs)
    {
      var l, f :| 0 <= l < |v'| && f in v'[l] && e in Run(t', f);
      if Stays(v, c, l, f) {
        assert e in Run(t, f);
      } else {
        assert f in outs;
      }
    }
    forall e | e in StayingEntries(t, v, c)
      ensures e in LevelsEntries(t', v')
    {
      var l, f :| 0 <= l < |v| && f in v[l] && Stays(v, c, l, f) && e in Run(t, f);
      assert f in v'[l] && e in Run(t', f);
    }
    forall e | e in FilesEntries(t', outs)
      ensures e in LevelsEntries(t', v')
    {
      var f :| f in outs && e in Run(t', f);
      assert f in v'[c.level + 1];
    }
  }

  // ------------------------------------------------------------------ the outputs

  lemma {:induction false} KeptSorted(contents: seq<Entry>, s: SequenceNumber, v: Version, level: nat, n: nat)
    requires Sorted(contents) && n <= |contents| && |v| == NUM_LEVELS
    ensures Sorted(Kept(contents, s, v, level, n))
    ensures forall e, i :: e in Kept(contents, s, v, level, n) && n <= i < |contents| ==> Less(e.key, contents[i].key)
  {
    hide Obsolete, Hidden, Less;
    if n > 0 {
      KeptSorted(contents, s, v, level, n - 1);
      assert forall i :: n <= i < |contents| ==> Less(contents[n - 1].key, contents[i].key);
      assert forall e :: e in Kept(contents, s, v, level, n - 1) ==> Less(e.key, contents[n - 1].key);
    }
  }

  lemma SortedParts(front: seq<Entry>, last: seq<Entry>)
    requires Sorted(front + last)
    ensures Sorted(front) && Sorted(last)
    ensures forall x, y :: x in front && y in last ==> Less(x.key, y.key)
  {
    var all := front + last;
    assert forall i :: 0 <= i < |front| ==> front[i] == all[i];
    assert forall j :: 0 <= j < |last| ==> last[j] == all[|front| + j];
  }

  /** Chunks of a sorted run are sorted runs, one after the other. */
  lemma {:induction false} ChunksSorted(outputs: seq<seq<Entry>>)
    requires Sorted(Flatten(outputs))
    ensures forall i :: 0 <= i < |outputs| ==> Sorted(outputs[i])
    ensures forall i, j, x, y :: 0 <= i < j < |outputs| && x in outputs[i] && y in outputs[j] ==> Less(x.key, y.key)
    ensures forall i, x :: 0 <= i < |outputs| && x in outputs[i] ==> x in Flatten(outputs)
  {
    if outputs != [] {
      var n := |outputs| - 1;
      SortedParts(Flatten(outputs[..n]), outputs[n]);
      hide Sorted, Less;
      ChunksSorted(outputs[..n]);
      assert forall i :: 0 <= i < n ==> outputs[i] == outputs[..n][i];
    }
  }

  lemma {:induction false} FlattenMembers(outputs: seq<seq<Entry>>, e: Entry)
    ensures e in Flatten(outputs) <==> exists i :: 0 <= i < |outputs| && e in outputs[i]
  {
    if outputs != [] {
      var n := |outputs| - 1;
      FlattenMembers(outputs[..n], e);
      assert forall i :: 0 <= i < n ==> outputs[i] == outputs[..n][i];
    }
  }

  /** What OpenCompactionOutputFile and FinishCompactionOutputFile record of an output. */
  function OutputMeta(o: seq<Entry>, number: nat, size: nat): FileMeta
    requires o != []
  {
    FileMeta(number, size, o[0].key, o[|o| - 1].key)
  }

  /** The output files, numbered from `next` on, and their tables. */
  ghost predicate WrittenOut(outputs: seq<seq<Entry>>, next: nat, t': Tables, outs: seq<FileMeta>) {
    && |outs| == |outputs|
    && (forall i :: 0 <= i < |outs| ==> outputs[i] != [] && outs[i] == OutputMeta(outputs[i], next + i, outs[i].size))
    && (forall i :: 0 <= i < |outs| ==> Run(t', outs[i]) == outputs[i])
  }

  /** Two chunks of a sorted run, made into files, do not overlap. */
  lemma ChunksApart(a: seq<Entry>, b: seq<Entry>, f: FileMeta, g: FileMeta)
    requires a != [] && b != [] && f == OutputMeta(a, f.number, f.size) && g == OutputMeta(b, g.number, g.size)
    requires forall x, y :: x in a && y in b ==> Less(x.key, y.key)
    ensures Apart(f, g) && Apart(g, f)
  {
    assert a[|a| - 1] in a && b[0] in b;
  }

  lemma OutputsFiles(outputs: seq<seq<Entry>>, next: nat, t': Tables, outs: seq<FileMeta>, i: nat)
    requires WrittenOut(outputs, next, t', outs) && i < |outs| && Sorted(outputs[i])
    ensures FileOk(t', outs[i]) && outs[i].number == next + i
  {
  }

  lemma OutputsApart(outputs: seq<seq<Entry>>, next: nat, t': Tables, outs: seq<FileMeta>, i: nat, j: nat)
    requires WrittenOut(outputs, next, t', outs) && i < |outs| && j < |outs| && i != j
    requires Sorted(Flatten(outputs))
    ensures Apart(outs[i], outs[j])
  {
    ChunksSorted(outputs);
    hide Sorted, Flatten, Less, Apart;
    if i < j {
      ChunksApart(outputs[i], outputs[j], outs[i], outs[j]);
    } else {
      ChunksApart(outputs[j], outputs[i], outs[j], outs[i]);
    }
  }

  lemma OutputsShape(outputs: seq<seq<Entry>>, next: nat, t': Tables, outs: seq<FileMeta>)
    requires Sorted(Flatten(outputs)) && WrittenOut(outputs, next, t', outs)
    ensures forall o :: o in outs ==> FileOk(t', o) && o.number >= next
    ensures forall o, p :: o in outs && p in outs && o != p ==> Apart(o, p) && o.number != p.number
  {
    ChunksSorted(outputs);
    hide Sorted, Flatten, Apart, WrittenOut, FileOk;
    assert |outs| == |outputs| by { OutputsCount(outputs, next, t', outs); }
    forall i | 0 <= i < |outs|
      ensures FileOk(t', outs[i]) && outs[i].number == next + i
    {
      OutputsFiles(outputs, next, t', outs, i);
    }
    forall i, j | 0 <= i < |outs| && 0 <= j < |outs| && i != j
      ensures Apart(outs[i], outs[j])
    {
      OutputsApart(outputs, next, t', outs, i, j);
    }
  }

  lemma OutputsCount(outputs: seq<seq<Entry>>, next: nat, t': Tables, outs: seq<FileMeta>)
    requires WrittenOut(outputs, next, t', outs)
    ensures |outs| == |outputs|
  {
  }

  lemma OutputsEntries(outputs: seq<seq<Entry>>, next: nat, t': Tables, outs: seq<FileMeta>)
    requires WrittenOut(outputs, next, t', outs)
    ensures FilesEntries(t', outs) == AllOf(Flatten(outputs))
  {
    hide Flatten;
    forall e
      ensures e in FilesEntries(t', outs) <==> e in Flatten(outputs)
    {
      FlattenMembers(outputs, e);
      if e in FilesEntries(t', outs) {
        var o :| o in outs && e in Run(t', o);
        var i :| 0 <= i < |outs| && outs[i] == o;
        assert e in outputs[i];
      }
      if e in Flatten(outputs) {
        var i :| 0 <= i < |outputs| && e in outputs[i];
        assert outs[i] in outs && e in Run(t', outs[i]);
      }
    }
  }

  /** The files written for the kept entries are what SinkKeepsOk asks for. */
  lemma CompactionOutputsOk(h: seq<Entry>, t: Tables, v: Version, t': Tables, c: Inputs, contents: seq<Entry>,
                            s: SequenceNumber, outputs: seq<seq<Entry>>, next: nat, outs: seq<FileMeta>)
    requires Compacting(h, t, v, c, contents)
    requires Flatten(outputs) == Kept(contents, s, v, c.level, |contents|)
    requires WrittenOut(outputs, next, t', outs)
    requires forall l, g :: 0 <= l < |v| && g in v[l] ==> g.number < next
    ensures OutputsOk(t, v, t', c, outs)
    ensures FilesEntries(t', outs) == AllOf(Kept(contents, s, v, c.level, |contents|))
  {
    KeptSorted(contents, s, v, c.level, |contents|);
    hide *;
    OutputsShape(outputs, next, t', outs);
    OutputsEntries(outputs, next, t', outs);
    forall o, e | o in outs && e in Run(t', o)
      ensures e in InputEntries(t, c)
    {
      InFilesEntries(t', outs, o, e);
      InAllOf(Kept(contents, s, v, c.level, |contents|), e);
      KeptFromInput(h, t, v, c, contents, s, e);
    }
    OutputsOkBy(t, v, t', c, next, outs);
  }

  lemma InAllOf(r: seq<Entry>, e: Entry)
    ensures e in AllOf(r) <==> e in r
  {
  }

  lemma OutputsOkBy(t: Tables, v: Version, t': Tables, c: Inputs, next: nat, outs: seq<FileMeta>)
    requires forall o :: o in outs ==> FileOk(t', o) && o.number >= next
    requires forall o, p :: o in outs && p in outs && o != p ==> Apart(o, p) && o.number != p.number
    requires forall o, e :: o in outs && e in Run(t', o) ==> e in InputEntries(t, c)
    requires forall l, g :: 0 <= l < |v| && g in v[l] ==> g.number < next
    ensures OutputsOk(t, v, t', c, outs)
  {
    hide FileOk, Apart, InputEntries, Run;
  }

  lemma InFilesEntries(t: Tables, files: seq<FileMeta>, f: FileMeta, e: Entry)
    requires f in files && e in Run(t, f)
    ensures e in FilesEntries(t, files)
  {
  }
}
