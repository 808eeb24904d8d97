/** The main loop of a compaction (DBImpl::DoCompactionWork) and its drop rules. */
module CompactionWork {
  import opened Keys
  import opened Files
  import opened Compactions
  import opened Merger

  // ------------------------------------------------------------------ the base level test

  predicate Spans(f: FileMeta, k: UserKey) {
    f.smallest.user <= k <= f.largest.user
  }

  /** No file two or more levels below the compaction's level spans the user key. */
  ghost predicate BaseLevel(v: Version, level: nat, k: UserKey)
    requires |v| == NUM_LEVELS
  {
    forall l, f :: level + 2 <= l < NUM_LEVELS && f in v[l] ==> !Spans(f, k)
  }

  /** Once a file of a sorted level does not end before the user key, only that file can span it. */
  lemma OnlyThisSpans(files: seq<FileMeta>, p: nat, k: UserKey)
    requires DisjointSorted(files) && p < |files| && k <= files[p].largest.user
    requires forall i :: 0 <= i < p ==> files[i].largest.user < k
    ensures (exists f :: f in files && Spans(f, k)) <==> files[p].smallest.user <= k
    ensures files[p].smallest.user <= k ==> files[p] in files && Spans(files[p], k)
  {
    if files[p].smallest.user <= k {
      assert files[p] in files && Spans(files[p], k);
    } else {
      forall i | 0 <= i < |files|
        ensures !Spans(files[i], k)
      {
        assert files[p] in files;
        assert i <= p || Less(files[p].largest, files[i].smallest);
      }
    }
  }

  lemma TotalStep(files: seq<FileMeta>, a: nat, b: nat)
    requires a <= b < |files|
    ensures TotalFileSize(files[a..b + 1]) == TotalFileSize(files[a..b]) + files[b].size
  {
    assert files[a..b + 1][..b - a] == files[a..b];
  }

  lemma TotalOfNone(files: seq<FileMeta>, i: nat)
    requires i <= |files|
    ensures TotalFileSize(files[i..i]) == 0
  {
  }

  lemma {:induction false} TotalSplit(files: seq<FileMeta>, a: nat, b: nat)
    requires a <= b <= |files|
    ensures TotalFileSize(files[..b]) == TotalFileSize(files[..a]) + TotalFileSize(files[a..b])
    decreases b
  {
    hide TotalFileSize;
    if a < b {
      TotalSplit(files, a, b - 1);
      TotalStep(files, 0, b - 1);
      TotalStep(files, a, b - 1);
      assert files[0..b] == files[..b] && files[0..b - 1] == files[..b - 1];
    } else {
      TotalOfNone(files, a);
    }
  }

  /** The part of class Compaction that changes while the compaction runs. */
  class Progress {
    const version: Version
    const level: nat
    const options: Options
    const grandparents: seq<FileMeta>
    const levelPtrs: array<nat>      // a cursor into every level from level + 2 on
    var grandparentIndex: nat
    var seenKey: bool
    var overlappedBytes: nat
    ghost var lastKey: Option<UserKey>

    ghost predicate Ok()
      reads this, levelPtrs
      ensures Ok() ==> |version| == NUM_LEVELS
    {
      && LevelsOk(version) && level + 1 < NUM_LEVELS
      && grandparentIndex <= |grandparents| && overlappedBytes <= TotalFileSize(grandparents[..grandparentIndex])
      && CursorsOk()
    }

    /** The cursors have passed only files that end before the last user key asked about. */
    ghost predicate CursorsOk()
      requires |version| == NUM_LEVELS
      reads this`lastKey, levelPtrs
    {
      && levelPtrs.Length == NUM_LEVELS
      && forall l :: level + 2 <= l < NUM_LEVELS ==>
           && levelPtrs[l] <= |version[l]|
           && forall i :: 0 <= i < levelPtrs[l] ==> lastKey.Some? && version[l][i].largest.user < lastKey.value
    }

    constructor (options: Options, version: Version, c: Inputs)
      requires LevelsOk(version) && c.level + 1 < NUM_LEVELS
      ensures Ok() && fresh(levelPtrs)
      ensures this.version == version && level == c.level && grandparents == c.grandparents && this.options == options
      ensures lastKey.None? && grandparentIndex == 0 && !seenKey && overlappedBytes == 0
    {
      this.options, this.version, level, grandparents := options, version, c.level, c.grandparents;
      levelPtrs := new nat[NUM_LEVELS](_ => 0);
      grandparentIndex, seenKey, overlappedBytes, lastKey := 0, false, 0, None;
    }

    /** Exact for user keys asked about in nondecreasing order. */
    method IsBaseLevelForKey(k: UserKey) returns (b: bool)
      requires Ok() && (lastKey.Some? ==> lastKey.value <= k)
      modifies this`lastKey, levelPtrs
      ensures Ok() && lastKey == Some(k)
      ensures b <==> BaseLevel(version, level, k)
    {
      lastKey := Some(k);
      for lvl := level + 2 to NUM_LEVELS
        invariant Ok() && lastKey == Some(k)
        invariant forall l, f :: level + 2 <= l < lvl && f in version[l] ==> !Spans(f, k)
      {
        var files := version[lvl];
        while levelPtrs[lvl] < |files|
          invariant Ok() && lastKey == Some(k)
          invariant forall i :: 0 <= i < levelPtrs[lvl] <= |files| ==> !Spans(files[i], k)
          decreases |files| - levelPtrs[lvl]
        {
          var f := files[levelPtrs[lvl]];
          if k <= f.largest.user {
            OnlyThisSpans(files, levelPtrs[lvl], k);
            if k >= f.smallest.user {
              return false;
            }
            break;
          }
          levelPtrs[lvl] := levelPtrs[lvl] + 1;
        }
      }
      return true;
    }

    /** Passes the grandparent files that end before the key, and asks for a new output
        when the files passed since the last one weigh too much. */
    method ShouldStopBefore(key: InternalKey) returns (stop: bool)
      requires Ok()
      modifies this`grandparentIndex, this`seenKey, this`overlappedBytes
      ensures Ok() && seenKey && old(grandparentIndex) <= grandparentIndex
      ensures grandparentIndex < |grandparents| ==> !Less(grandparents[grandparentIndex].largest, key)
      ensures forall i :: old(grandparentIndex) <= i < grandparentIndex ==> Less(grandparents[i].largest, key)
      ensures var passed := TotalFileSize(grandparents[old(grandparentIndex)..grandparentIndex]);
              var total := old(overlappedBytes) + if old(seenKey) then passed else 0;
              && (stop <==> total > options.MaxGrandParentOverlapBytes())
              && overlappedBytes == if stop then 0 else total
    {
      hide LevelsOk, Progress.CursorsOk, Less, TotalFileSize;
      ghost var start := grandparentIndex;
      TotalOfNone(grandparents, start);
      while grandparentIndex < |grandparents| && Less(grandparents[grandparentIndex].largest, key)
        invariant Ok() && start <= grandparentIndex <= |grandparents| && seenKey == old(seenKey)
        invariant forall i :: start <= i < grandparentIndex ==> Less(grandparents[i].largest, key)
        invariant overlappedBytes == old(overlappedBytes) +
                                     if seenKey then TotalFileSize(grandparents[start..grandparentIndex]) else 0
      {
        assert Less(grandparents[grandparentIndex].largest, key);
        TotalStep(grandparents, start, grandparentIndex);
        TotalStep(grandparents, 0, grandparentIndex);
        assert grandparents[0..grandparentIndex] == grandparents[..grandparentIndex];
        assert grandparents[0..grandparentIndex + 1] == grandparents[..grandparentIndex + 1];
        if seenKey {
          overlappedBytes := overlappedBytes + grandparents[grandparentIndex].size;
        }
        grandparentIndex := grandparentIndex + 1;
      }
      seenKey := true;
      if overlappedBytes > options.MaxGrandParentOverlapBytes() {
        overlappedBytes := 0;
        return true;
      } else {
        return false;
      }
    }
  }

  // ------------------------------------------------------------------ the drop rules

  /** Rule A: the entry is hidden by a newer entry of its user key that every reader sees. */
  predicate Hidden(c: seq<Entry>, s: SequenceNumber, i: nat)
    requires i < |c|
  {
    0 < i && c[i - 1].key.user == c[i].key.user && c[i - 1].key.sequence <= s
  }

  /** Rule B: the entry is a deletion that every reader sees, with nothing below to delete. */
  ghost predicate Obsolete(c: seq<Entry>, s: SequenceNumber, v: Version, level: nat, i: nat)
    requires i < |c| && |v| == NUM_LEVELS
  {
    c[i].key.kind.TypeDeletion? && c[i].key.sequence <= s && BaseLevel(v, level, c[i].key.user)
  }

  ghost predicate Dropped(c: seq<Entry>, s: SequenceNumber, v: Version, level: nat, i: nat)
    requires i < |c| && |v| == NUM_LEVELS
  {
    Hidden(c, s, i) || Obsolete(c, s, v, level, i)
  }

  /** The entries among the first n that are not dropped, in order. */
  ghost function Kept(c: seq<Entry>, s: SequenceNumber, v: Version, level: nat, n: nat): seq<Entry>
    requires n <= |c| && |v| == NUM_LEVELS
  {
    if n == 0 then [] else
    Kept(c, s, v, level, n - 1) + if Dropped(c, s, v, level, n - 1) then [] else [c[n - 1]]
  }

  function Flatten(outputs: seq<seq<Entry>>): seq<Entry> {
    if outputs == [] then [] else Flatten(outputs[..|outputs| - 1]) + outputs[|outputs| - 1]
  }

  lemma FlattenAppend(outputs: seq<seq<Entry>>, o: seq<Entry>)
    ensures Flatten(outputs + [o]) == Flatten(outputs) + o
  {
    assert (outputs + [o])[..|outputs|] == outputs;
  }

  lemma FlattenLast(outputs: seq<seq<Entry>>)
    requires outputs != []
    ensures Flatten(outputs) == Flatten(outputs[..|outputs| - 1]) + outputs[|outputs| - 1]
  {
  }

  lemma KeptStep(c: seq<Entry>, s: SequenceNumber, v: Version, level: nat, i: nat)
    requires i < |c| && |v| == NUM_LEVELS
    ensures Kept(c, s, v, level, i + 1) ==
            Kept(c, s, v, level, i) + if Dropped(c, s, v, level, i) then [] else [c[i]]
  {
  }

  lemma UserOrder(c: seq<Entry>, i: nat)
    requires Sorted(c) && 0 < i < |c|
    ensures c[i - 1].key.user <= c[i].key.user
  {
    assert Less(c[i - 1].key, c[i].key);
  }

  // ------------------------------------------------------------------ where outputs end

  /** How many grandparents, from the first on, end before the key. */
  function PassedAt(g: seq<FileMeta>, key: InternalKey): (n: nat)
    ensures n <= |g|
  {
    if g == [] || !Less(g[0].largest, key) then 0 else 1 + PassedAt(g[1..], key)
  }

  function WeightAt(g: seq<FileMeta>, key: InternalKey): nat {
    TotalFileSize(g[..PassedAt(g, key)])
  }

  /** At the i-th input the grandparents passed since the last such input weigh too much. */
  predicate StopsAt(options: Options, g: seq<FileMeta>, c: seq<Entry>, i: nat)
    requires i < |c|
    decreases i, 1
  {
    WeightAt(g, c[i].key) - WeightAt(g, c[LastStop(options, g, c, i)].key) > options.MaxGrandParentOverlapBytes()
  }

  /** The last of the first i inputs at which this was so, or the first input. */
  function LastStop(options: Options, g: seq<FileMeta>, c: seq<Entry>, i: nat): (p: nat)
    requires i <= |c|
    ensures p < i || p == i == 0
    decreases i, 0
  {
    if i == 0 then 0 else if StopsAt(options, g, c, i - 1) then i - 1 else LastStop(options, g, c, i - 1)
  }

  /** There is such an input after the p-th and up to the q-th. */
  ghost predicate StopBetween(options: Options, g: seq<FileMeta>, c: seq<Entry>, p: nat, q: nat)
    requires q < |c|
  {
    exists i :: p < i <= q && StopsAt(options, g, c, i)
  }

  lemma {:induction false} LastStopIs(options: Options, g: seq<FileMeta>, c: seq<Entry>, p: nat, q: nat)
    requires p <= q < |c|
    ensures StopBetween(options, g, c, p, q) <==> LastStop(options, g, c, q + 1) > p
    decreases q
  {
    hide StopsAt;
    if p < q {
      LastStopIs(options, g, c, p, q - 1);
    }
    assert StopsAt(options, g, c, q) ==> LastStop(options, g, c, q + 1) == q;
  }

  /** An output that has come to the p-th input ends before the q-th: it is big enough, or
      the grandparents say so. */
  ghost predicate Due(options: Options, g: seq<FileMeta>, c: seq<Entry>, fileSize: seq<Entry> -> nat, o: seq<Entry>, p: nat, q: nat)
    requires q < |c|
  {
    fileSize(o) >= options.maxFileSize || StopBetween(options, g, c, p, q)
  }

  /** An output does not go on where it is due to end. */
  ghost predicate GoesOn(options: Options, g: seq<FileMeta>, c: seq<Entry>, fileSize: seq<Entry> -> nat, o: seq<Entry>) {
    forall n, p, q :: 0 < n < |o| && 0 <= p < q < |c| && c[p] == o[n - 1] && c[q] == o[n] ==>
      !Due(options, g, c, fileSize, o[..n], p, q)
  }

  /** Nor does it end before the next one starts unless it is due to. */
  ghost predicate EndsDue(options: Options, g: seq<FileMeta>, c: seq<Entry>, fileSize: seq<Entry> -> nat, o: seq<Entry>, next: seq<Entry>)
    requires o != [] && next != []
  {
    forall p, q :: 0 <= p < q < |c| && c[p] == o[|o| - 1] && c[q] == next[0] ==> Due(options, g, c, fileSize, o, p, q)
  }

  /** The outputs of the merged inputs are cut where they are due to end, and nowhere else. */
  ghost predicate CutWhereDue(options: Options, g: seq<FileMeta>, c: seq<Entry>, fileSize: seq<Entry> -> nat, outputs: seq<seq<Entry>>) {
    && (forall k :: 0 <= k < |outputs| ==> outputs[k] != [] && GoesOn(options, g, c, fileSize, outputs[k]))
    && (forall k :: 0 < k < |outputs| ==> EndsDue(options, g, c, fileSize, outputs[k - 1], outputs[k]))
  }

  /** The finished outputs and the open one. */
  function Pieces(outputs: seq<seq<Entry>>, builder: seq<Entry>): seq<seq<Entry>> {
    if builder == [] then outputs else outputs + [builder]
  }

  /** Of the first i inputs: the last output is open exactly if nothing up to the t-th
      input ends it. */
  ghost predicate OpenUnlessDue(options: Options, g: seq<FileMeta>, c: seq<Entry>, fileSize: seq<Entry> -> nat, i: nat, t: nat,
                                all: seq<seq<Entry>>, open: bool)
    requires t <= |c|
  {
    all != [] && all[|all| - 1] != [] ==>
      var o := all[|all| - 1];
      forall p :: 0 <= p < |c| && c[p] == o[|o| - 1] ==>
        p < i && (open <==> fileSize(o) < options.maxFileSize && LastStop(options, g, c, t) <= p)
  }

  ghost predicate CutOk(options: Options, g: seq<FileMeta>, c: seq<Entry>, fileSize: seq<Entry> -> nat, i: nat, t: nat,
                        outputs: seq<seq<Entry>>, builder: seq<Entry>)
    requires t <= |c|
  {
    && CutWhereDue(options, g, c, fileSize, Pieces(outputs, builder))
    && OpenUnlessDue(options, g, c, fileSize, i, t, Pieces(outputs, builder), builder != [])
  }

  lemma NextStop(options: Options, g: seq<FileMeta>, c: seq<Entry>, i: nat)
    requires i < |c|
    ensures LastStop(options, g, c, i + 1) == if StopsAt(options, g, c, i) then i else LastStop(options, g, c, i)
  {
    hide StopsAt;
  }

  /** Coming to the i-th input: the open output is finished if the grandparents say so. */
  lemma CutBefore(options: Options, g: seq<FileMeta>, c: seq<Entry>, fileSize: seq<Entry> -> nat, i: nat,
                  outputs: seq<seq<Entry>>, builder: seq<Entry>)
    requires i < |c| && CutOk(options, g, c, fileSize, i, i, outputs, builder)
    ensures var stop := StopsAt(options, g, c, i);
            CutOk(options, g, c, fileSize, i, i + 1, if stop then Pieces(outputs, builder) else outputs, if stop then [] else builder)
  {
    hide StopsAt, LastStop, CutWhereDue;
    NextStop(options, g, c, i);
  }

  lemma DistinctInputs(c: seq<Entry>, i: nat)
    requires Sorted(c) && i < |c|
    ensures forall p :: 0 <= p < |c| && c[p] == c[i] ==> p == i
  {
    forall p | 0 <= p < |c| && c[p] == c[i]
      ensures p == i
    {
      SortedIndex(c, p, i);
      SortedIndex(c, i, p);
    }
  }

  /** The open output goes on with the i-th input. */
  lemma OneMore(options: Options, g: seq<FileMeta>, c: seq<Entry>, fileSize: seq<Entry> -> nat, i: nat, builder: seq<Entry>)
    requires Sorted(c) && i < |c| && builder != [] && GoesOn(options, g, c, fileSize, builder)
    requires forall p :: 0 <= p < |c| && c[p] == builder[|builder| - 1] ==>
               p < i && fileSize(builder) < options.maxFileSize && LastStop(options, g, c, i + 1) <= p
    ensures GoesOn(options, g, c, fileSize, builder + [c[i]])
  {
    DistinctInputs(c, i);
    hide StopBetween, LastStop, Sorted;
    var b := builder + [c[i]];
    forall n, p, q | 0 < n < |b| && 0 <= p < q < |c| && c[p] == b[n - 1] && c[q] == b[n]
      ensures !Due(options, g, c, fileSize, b[..n], p, q)
    {
      assert b[..n] == builder[..n];
      if n == |builder| {
        assert builder[..n] == builder;
        LastStopIs(options, g, c, p, i);
      }
    }
  }

  /** A new output starts with the i-th input. */
  lemma NewOne(options: Options, g: seq<FileMeta>, c: seq<Entry>, fileSize: seq<Entry> -> nat, i: nat, o: seq<Entry>)
    requires Sorted(c) && i < |c| && o != []
    requires forall p :: 0 <= p < |c| && c[p] == o[|o| - 1] ==>
               p < i && (fileSize(o) >= options.maxFileSize || LastStop(options, g, c, i + 1) > p)
    ensures EndsDue(options, g, c, fileSize, o, [c[i]])
  {
    DistinctInputs(c, i);
    hide StopBetween, LastStop, Sorted;
    forall p, q | 0 <= p < q < |c| && c[p] == o[|o| - 1] && c[q] == c[i]
      ensures Due(options, g, c, fileSize, o, p, q)
    {
      LastStopIs(options, g, c, p, i);
    }
  }

  lemma OpenNow(options: Options, g: seq<FileMeta>, c: seq<Entry>, fileSize: seq<Entry> -> nat, i: nat, all: seq<seq<Entry>>, b: seq<Entry>)
    requires Sorted(c) && i < |c| && b != [] && b[|b| - 1] == c[i]
    ensures OpenUnlessDue(options, g, c, fileSize, i + 1, i + 1, all + [b], fileSize(b) < options.maxFileSize)
  {
    DistinctInputs(c, i);
    hide LastStop, Sorted;
  }

  /** The i-th input is kept: it goes to the open output, or to a new one. */
  lemma CutAdd(options: Options, g: seq<FileMeta>, c: seq<Entry>, fileSize: seq<Entry> -> nat, i: nat,
               outputs: seq<seq<Entry>>, builder: seq<Entry>)
    requires Sorted(c) && i < |c| && CutOk(options, g, c, fileSize, i, i + 1, outputs, builder)
    ensures var b := builder + [c[i]];
            if fileSize(b) >= options.maxFileSize then CutOk(options, g, c, fileSize, i + 1, i + 1, outputs + [b], [])
            else CutOk(options, g, c, fileSize, i + 1, i + 1, outputs, b)
  {
    hide Sorted, LastStop, CutWhereDue, OpenUnlessDue;
    var b := builder + [c[i]];
    OpenNow(options, g, c, fileSize, i, outputs, b);
    if builder != [] {
      CutLonger(options, g, c, fileSize, i, outputs, builder);
    } else {
      CutNew(options, g, c, fileSize, i, outputs);
      assert b == [c[i]];
    }
  }

  lemma CutLonger(options: Options, g: seq<FileMeta>, c: seq<Entry>, fileSize: seq<Entry> -> nat, i: nat,
                  outputs: seq<seq<Entry>>, builder: seq<Entry>)
    requires Sorted(c) && i < |c| && builder != [] && CutWhereDue(options, g, c, fileSize, outputs + [builder])
    requires OpenUnlessDue(options, g, c, fileSize, i, i + 1, outputs + [builder], true)
    ensures CutWhereDue(options, g, c, fileSize, outputs + [builder + [c[i]]])
  {
    hide Sorted, GoesOn, EndsDue, LastStop;
    var b, all := builder + [c[i]], outputs + [builder];
    assert all[|all| - 1] == builder;
    OneMore(options, g, c, fileSize, i, builder);
    if outputs != [] {
      assert all[|outputs| - 1] == outputs[|outputs| - 1];
      SameStart(options, g, c, fileSize, outputs[|outputs| - 1], builder, b);
    }
    assert forall k :: 0 <= k < |outputs| ==> (outputs + [b])[k] == all[k];
  }

  lemma CutNew(options: Options, g: seq<FileMeta>, c: seq<Entry>, fileSize: seq<Entry> -> nat, i: nat, outputs: seq<seq<Entry>>)
    requires Sorted(c) && i < |c| && CutWhereDue(options, g, c, fileSize, outputs)
    requires OpenUnlessDue(options, g, c, fileSize, i, i + 1, outputs, false)
    ensures CutWhereDue(options, g, c, fileSize, outputs + [[c[i]]])
  {
    hide Sorted, GoesOn, EndsDue, LastStop;
    AloneGoesOn(options, g, c, fileSize, c[i]);
    if outputs != [] {
      NewOne(options, g, c, fileSize, i, outputs[|outputs| - 1]);
    }
  }

  lemma SameStart(options: Options, g: seq<FileMeta>, c: seq<Entry>, fileSize: seq<Entry> -> nat, o: seq<Entry>, a: seq<Entry>, b: seq<Entry>)
    requires o != [] && a != [] && b != [] && a[0] == b[0] && EndsDue(options, g, c, fileSize, o, a)
    ensures EndsDue(options, g, c, fileSize, o, b)
  {
    hide Due;
  }

  lemma AloneGoesOn(options: Options, g: seq<FileMeta>, c: seq<Entry>, fileSize: seq<Entry> -> nat, e: Entry)
    ensures GoesOn(options, g, c, fileSize, [e])
  {
    hide Due;
  }

  lemma CutDropped(options: Options, g: seq<FileMeta>, c: seq<Entry>, fileSize: seq<Entry> -> nat, i: nat,
                   outputs: seq<seq<Entry>>, builder: seq<Entry>)
    requires i < |c| && CutOk(options, g, c, fileSize, i, i + 1, outputs, builder)
    ensures CutOk(options, g, c, fileSize, i + 1, i + 1, outputs, builder)
  {
    hide CutWhereDue, LastStop;
  }

  /** Finishes the open output when asked to, then adds the kept entry and finishes the
      output again once it is big enough. */
  method Emit(outputs: seq<seq<Entry>>, builder: seq<Entry>, stop: bool, drop: bool, e: Entry, options: Options,
              fileSize: seq<Entry> -> nat, ghost g: seq<FileMeta>, ghost c: seq<Entry>, ghost i: nat)
    returns (outputs': seq<seq<Entry>>, builder': seq<Entry>)
    requires Sorted(c) && i < |c| && c[i] == e && (stop <==> StopsAt(options, g, c, i))
    requires CutOk(options, g, c, fileSize, i, i, outputs, builder)
    ensures Flatten(outputs') + builder' == Flatten(outputs) + builder + if drop then [] else [e]
    ensures CutOk(options, g, c, fileSize, i + 1, i + 1, outputs', builder')
  {
    hide CutOk, Flatten, StopsAt, Sorted;
    CutBefore(options, g, c, fileSize, i, outputs, builder);
    outputs', builder' := outputs, builder;
    if stop && builder' != [] {
      FlattenAppend(outputs', builder');
      outputs', builder' := outputs' + [builder'], [];
    }
    if drop {
      CutDropped(options, g, c, fileSize, i, outputs', builder');
    } else {
      CutAdd(options, g, c, fileSize, i, outputs', builder');
      builder' := builder' + [e];
      if fileSize(builder') >= options.maxFileSize {
        FlattenAppend(outputs', builder');
        outputs', builder' := outputs' + [builder'], [];
      }
    }
  }

  /** What the loop remembers of the entries before the i-th. */
  ghost predicate Remembers(c: seq<Entry>, i: nat, currentUserKey: Option<UserKey>, lastSequenceForKey: SequenceNumber,
                            lastKey: Option<UserKey>)
  {
    && i <= |c|
    && (i == 0 ==> currentUserKey.None? && lastKey.None?)
    && (i > 0 ==> currentUserKey == Some(c[i - 1].key.user) && lastSequenceForKey == c[i - 1].key.sequence)
    && (lastKey.Some? ==> i > 0 && lastKey.value <= c[i - 1].key.user)
  }

  /** Decides whether the i-th entry is dropped. */
  method Decide(progress: Progress, e: Entry, user: Option<UserKey>, last: SequenceNumber,
                smallestSnapshot: SequenceNumber, ghost c: seq<Entry>, ghost i: nat)
    returns (drop: bool, user': Option<UserKey>, last': SequenceNumber)
    requires progress.Ok() && Sorted(c) && i < |c| && c[i] == e
    requires Remembers(c, i, user, last, progress.lastKey)
    requires smallestSnapshot < MAX_SEQUENCE
    modifies progress`lastKey, progress.levelPtrs
    ensures progress.Ok() && Remembers(c, i + 1, user', last', progress.lastKey)
    ensures drop <==> Dropped(c, smallestSnapshot, progress.version, progress.level, i)
  {
    hide Progress.Ok, BaseLevel, Sorted;
    if 0 < i {
      UserOrder(c, i);
    }
    drop, user', last' := false, user, last;
    if user'.None? || e.key.user != user'.value {
      // first occurrence of this user key
      user' := Some(e.key.user);
      last' := MAX_SEQUENCE;
    }
    if last' <= smallestSnapshot {
      drop := true;
    } else if e.key.kind.TypeDeletion? && e.key.sequence <= smallestSnapshot {
      drop := progress.IsBaseLevelForKey(e.key.user);
    }
    last' := e.key.sequence;
  }

  /** The state of the loop before the i-th entry. */
  datatype Work = Work(
    outputs: seq<seq<Entry>>,
    builder: seq<Entry>,                  // the open output; empty when there is none
    currentUserKey: Option<UserKey>,
    lastSequenceForKey: SequenceNumber)

  ghost predicate WorkOk(w: Work, c: seq<Entry>, i: nat, s: SequenceNumber, v: Version, level: nat, lastKey: Option<UserKey>)
  {
    && |v| == NUM_LEVELS
    && Remembers(c, i, w.currentUserKey, w.lastSequenceForKey, lastKey)
    && Flatten(w.outputs) + w.builder == Kept(c, s, v, level, i)
  }

  /** The grandparents have been passed up to the key of the last input, and those since
      the last stop weighed. */
  ghost predicate PaceOk(progress: Progress, c: seq<Entry>, i: nat)
    requires i <= |c|
    reads progress`grandparentIndex, progress`seenKey, progress`overlappedBytes
  {
    Pace(progress.options, progress.grandparents, c, i, progress.grandparentIndex, progress.seenKey, progress.overlappedBytes)
  }

  ghost predicate Pace(options: Options, g: seq<FileMeta>, c: seq<Entry>, i: nat, index: nat, seen: bool, bytes: nat)
    requires i <= |c|
  {
    && (seen <==> i > 0)
    && (i == 0 ==> index == 0 && bytes == 0)
    && (i > 0 ==>
          && index == PassedAt(g, c[i - 1].key)
          && bytes == WeightAt(g, c[i - 1].key) - WeightAt(g, c[LastStop(options, g, c, i)].key))
  }

  lemma {:induction false} PassedIs(g: seq<FileMeta>, key: InternalKey, n: nat)
    requires n <= |g| && (forall j :: 0 <= j < n ==> Less(g[j].largest, key)) && (n < |g| ==> !Less(g[n].largest, key))
    ensures PassedAt(g, key) == n
  {
    if n > 0 {
      PassedIs(g[1..], key, n - 1);
    }
  }

  lemma {:induction false} PassedParts(g: seq<FileMeta>, key: InternalKey)
    ensures forall j :: 0 <= j < PassedAt(g, key) ==> Less(g[j].largest, key)
    ensures PassedAt(g, key) < |g| ==> !Less(g[PassedAt(g, key)].largest, key)
  {
    hide Less;
    if g != [] && Less(g[0].largest, key) {
      PassedParts(g[1..], key);
      assert forall j :: 1 <= j < |g| ==> g[j] == g[1..][j - 1];
    }
  }

  /** Passing on from where the last key was comes to where the next key is. */
  lemma PassedOn(g: seq<FileMeta>, before: InternalKey, key: InternalKey, n: nat)
    requires Less(before, key) && PassedAt(g, before) <= n <= |g|
    requires (forall j :: PassedAt(g, before) <= j < n ==> Less(g[j].largest, key)) && (n < |g| ==> !Less(g[n].largest, key))
    ensures PassedAt(g, key) == n
    ensures WeightAt(g, key) == WeightAt(g, before) + TotalFileSize(g[PassedAt(g, before)..n])
  {
    PassedParts(g, before);
    forall j | 0 <= j < n
      ensures Less(g[j].largest, key)
    {
    }
    PassedIs(g, key, n);
    TotalSplit(g, PassedAt(g, before), n);
  }

  /** What ShouldStopBefore answers for the i-th input, and the pace after it. */
  lemma PaceNext(options: Options, g: seq<FileMeta>, c: seq<Entry>, i: nat, index: nat, seen: bool, bytes: nat, index': nat, total: nat, stop: bool)
    requires Sorted(c) && i < |c| && Pace(options, g, c, i, index, seen, bytes) && index <= index' <= |g|
    requires forall j :: index <= j < index' ==> Less(g[j].largest, c[i].key)
    requires index' < |g| ==> !Less(g[index'].largest, c[i].key)
    requires total == bytes + (if seen then TotalFileSize(g[index..index']) else 0)
    requires stop <==> total > options.MaxGrandParentOverlapBytes()
    ensures stop <==> StopsAt(options, g, c, i)
    ensures Pace(options, g, c, i + 1, index', true, if stop then 0 else total)
  {
    hide Less, TotalFileSize, PassedAt, LastStop, StopsAt, WeightAt;
    NextStop(options, g, c, i);
    StopIs(options, g, c, i);
    if i > 0 {
      InOrderKeys(c, i);
      PassedOn(g, c[i - 1].key, c[i].key, index');
    } else {
      PassedIs(g, c[0].key, index');
      NoStopYet(options, g, c);
    }
  }

  lemma StopIs(options: Options, g: seq<FileMeta>, c: seq<Entry>, i: nat)
    requires i < |c|
    ensures StopsAt(options, g, c, i) <==>
            WeightAt(g, c[i].key) - WeightAt(g, c[LastStop(options, g, c, i)].key) > options.MaxGrandParentOverlapBytes()
  {
    hide WeightAt, LastStop;
  }

  lemma NoStopYet(options: Options, g: seq<FileMeta>, c: seq<Entry>)
    requires c != []
    ensures LastStop(options, g, c, 0) == 0 && !StopsAt(options, g, c, 0)
  {
    hide WeightAt;
  }

  lemma InOrderKeys(c: seq<Entry>, i: nat)
    requires Sorted(c) && 0 < i < |c|
    ensures Less(c[i - 1].key, c[i].key)
  {
  }

  ghost predicate WorkCut(w: Work, progress: Progress, fileSize: seq<Entry> -> nat, c: seq<Entry>, i: nat)
    requires i <= |c|
    reads progress`grandparentIndex, progress`seenKey, progress`overlappedBytes
  {
    && PaceOk(progress, c, i)
    && CutOk(progress.options, progress.grandparents, c, fileSize, i, i, w.outputs, w.builder)
  }

  /** Asks ShouldStopBefore for the i-th input. */
  method AskToStop(progress: Progress, e: Entry, ghost c: seq<Entry>, ghost i: nat) returns (stop: bool)
    requires progress.Ok() && Sorted(c) && i < |c| && c[i] == e && PaceOk(progress, c, i)
    modifies progress`grandparentIndex, progress`seenKey, progress`overlappedBytes
    ensures progress.Ok() && PaceOk(progress, c, i + 1)
    ensures stop <==> StopsAt(progress.options, progress.grandparents, c, i)
  {
    hide Sorted, Less, Pace, StopsAt, Progress.CursorsOk, LevelsOk, TotalFileSize;
    ghost var index, seen, bytes := progress.grandparentIndex, progress.seenKey, progress.overlappedBytes;
    stop := progress.ShouldStopBefore(e.key);
    PaceNext(progress.options, progress.grandparents, c, i, index, seen, bytes, progress.grandparentIndex,
             bytes + if seen then TotalFileSize(progress.grandparents[index..progress.grandparentIndex]) else 0, stop);
  }

  /** One round of the loop. */
  method Process(progress: Progress, w: Work, e: Entry, smallestSnapshot: SequenceNumber,
                 fileSize: seq<Entry> -> nat, ghost c: seq<Entry>, ghost i: nat)
    returns (w': Work)
    requires progress.Ok() && Sorted(c) && i < |c| && c[i] == e
    requires WorkOk(w, c, i, smallestSnapshot, progress.version, progress.level, progress.lastKey)
    requires smallestSnapshot < MAX_SEQUENCE && WorkCut(w, progress, fileSize, c, i)
    modifies progress, progress.levelPtrs
    ensures progress.Ok() && WorkCut(w', progress, fileSize, c, i + 1)
    ensures WorkOk(w', c, i + 1, smallestSnapshot, progress.version, progress.level, progress.lastKey)
  {
    hide Progress.Ok, PaceOk, CutOk, Flatten, Kept, Dropped, Sorted, Remembers, StopsAt;
    var stop := AskToStop(progress, e, c, i);
    var drop, currentUserKey, lastSequenceForKey :=
      Decide(progress, e, w.currentUserKey, w.lastSequenceForKey, smallestSnapshot, c, i);
    KeptStep(c, smallestSnapshot, progress.version, progress.level, i);
    var outputs, builder := Emit(w.outputs, w.builder, stop, drop, e, progress.options, fileSize, progress.grandparents, c, i);
    w' := Work(outputs, builder, currentUserKey, lastSequenceForKey);
  }

  /** Runs the merged inputs through the drop rules into output files.  They are cut where
      the grandparent overlap or, by `fileSize`, the size of the file says so. */
  method DoCompactionWork(progress: Progress, input: MergingIterator, smallestSnapshot: SequenceNumber,
                          fileSize: seq<Entry> -> nat)
    returns (outputs: seq<seq<Entry>>)
    requires progress.Ok() && progress.lastKey.None?
    requires progress.grandparentIndex == 0 && !progress.seenKey && progress.overlappedBytes == 0
    requires input.Ok() && Sorted(input.contents)
    requires progress !in input.Repr() && progress.levelPtrs !in input.Repr()
    requires smallestSnapshot < MAX_SEQUENCE
    modifies progress, progress.levelPtrs, input.Repr()
    ensures Flatten(outputs) == Kept(input.contents, smallestSnapshot, progress.version, progress.level, |input.contents|)
    ensures CutWhereDue(progress.options, progress.grandparents, input.contents, fileSize, outputs)
  {
    hide MergingIterator.Ok, Progress.Ok, Sorted, WorkOk, WorkCut, CutWhereDue, Kept, Flatten;
    var w := NO_WORK;
    ghost var c, s, v, level := input.contents, smallestSnapshot, progress.version, progress.level;
    NothingDone(progress, c, s, fileSize);
    input.SeekToFirst();
    while input.Valid()
      invariant progress.Ok() && input.Ok() && input.pos <= |c|
      invariant WorkOk(w, c, input.pos, s, v, level, progress.lastKey) && WorkCut(w, progress, fileSize, c, input.pos)
      decreases |c| - input.pos
    {
      w := Process(progress, w, input.Current(), smallestSnapshot, fileSize, c, input.pos);
      input.Next();
    }
    outputs := FinishLast(w, progress, c, s, fileSize);
  }

  const NO_WORK := Work([], [], None, MAX_SEQUENCE)

  lemma NothingDone(progress: Progress, c: seq<Entry>, s: SequenceNumber, fileSize: seq<Entry> -> nat)
    requires progress.Ok() && progress.lastKey.None?
    requires progress.grandparentIndex == 0 && !progress.seenKey && progress.overlappedBytes == 0
    ensures WorkOk(NO_WORK, c, 0, s, progress.version, progress.level, progress.lastKey)
    ensures WorkCut(NO_WORK, progress, fileSize, c, 0)
  {
  }

  /** After the last entry the open output is finished. */
  method FinishLast(w: Work, ghost progress: Progress, ghost c: seq<Entry>, ghost s: SequenceNumber, ghost fileSize: seq<Entry> -> nat)
    returns (outputs: seq<seq<Entry>>)
    requires WorkOk(w, c, |c|, s, progress.version, progress.level, progress.lastKey) && WorkCut(w, progress, fileSize, c, |c|)
    ensures |progress.version| == NUM_LEVELS
    ensures Flatten(outputs) == Kept(c, s, progress.version, progress.level, |c|)
    ensures CutWhereDue(progress.options, progress.grandparents, c, fileSize, outputs)
  {
    hide Kept, Flatten, Remembers, CutWhereDue, PaceOk, OpenUnlessDue;
    outputs := w.outputs;
    if w.builder != [] {
      FlattenAppend(outputs, w.builder);
      outputs := outputs + [w.builder];
    }
  }
}
