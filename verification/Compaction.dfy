/** Choosing the inputs of a compaction (version_set.cc) and the state it keeps while it runs. */
module Compactions {
  import opened Keys
  import opened Files

  /** The files of each level. */
  type Version = seq<seq<FileMeta>>

  datatype Options = Options(maxFileSize: nat) {
    function MaxGrandParentOverlapBytes(): nat { 10 * maxFileSize }
    function ExpandedCompactionByteSizeLimit(): nat { 25 * maxFileSize }
  }

  /** Seven levels; above level 0 the files are sorted and disjoint. */
  ghost predicate LevelsOk(v: Version) {
    && |v| == NUM_LEVELS
    && AllInOrder(v[0])
    && forall l :: 1 <= l < NUM_LEVELS ==> DisjointSorted(v[l])
  }

  datatype Inputs = Inputs(
    level: nat, inputs0: seq<FileMeta>, inputs1: seq<FileMeta>, grandparents: seq<FileMeta>, pointer: InternalKey)

  // ------------------------------------------------------------------ what the inputs guarantee

  /** No entry of `f` is older than an entry of `d` of the same user key: f ends before
      d starts, or starts with a greater user key than d ends with. */
  predicate KeepsAhead(f: FileMeta, d: FileMeta) {
    Less(f.largest, d.smallest) || d.largest.user < f.smallest.user
  }

  /** The inputs of a level may sink to the next one: every file left behind keeps ahead of them. */
  ghost predicate MaySink(level: seq<FileMeta>, inputs: seq<FileMeta>) {
    forall f, d :: f in level && f !in inputs && d in inputs ==> KeepsAhead(f, d)
  }

  /** The upper inputs are all files of level 0 that overlap a closed range, or
      consecutive files of a sorted level. */
  ghost predicate Selected(v: Version, level: nat, inputs: seq<FileMeta>)
    requires level < |v|
  {
    if level == 0 then
      exists lo, hi :: Closed(v[0], lo, hi) && inputs == Overlapping(v[0], lo, hi)
    else
      IsSlice(inputs, v[level])
  }

  /** The lower inputs are the files of the next level that overlap the upper inputs. */
  ghost predicate CoversNext(next: seq<FileMeta>, inputs0: seq<FileMeta>, inputs1: seq<FileMeta>) {
    exists s, l :: IsSmallest(inputs0, s) && IsLargest(inputs0, l) &&
                   inputs1 == Overlapping(next, Some(s.user), Some(l.user))
  }

  lemma CoversNextBy(next: seq<FileMeta>, inputs0: seq<FileMeta>, inputs1: seq<FileMeta>, s: InternalKey, l: InternalKey)
    requires IsSmallest(inputs0, s) && IsLargest(inputs0, l)
    requires inputs1 == Overlapping(next, Some(s.user), Some(l.user))
    ensures CoversNext(next, inputs0, inputs1)
  {
  }

  ghost predicate InputsOk(v: Version, c: Inputs) {
    && LevelsOk(v) && c.level + 1 < NUM_LEVELS
    && c.inputs0 != [] && (forall f :: f in c.inputs0 ==> f in v[c.level])
    && Selected(v, c.level, c.inputs0)
    && MaySink(v[c.level], c.inputs0)
    && CoversNext(v[c.level + 1], c.inputs0, c.inputs1)
    && (forall f :: f in c.grandparents ==> c.level + 2 < NUM_LEVELS && f in v[c.level + 2])
  }

  /** A closed set of level-0 files has no boundary file. */
  lemma ClosedHasNoBoundary(files: seq<FileMeta>, lo: Bound, hi: Bound, k: InternalKey, f: FileMeta)
    requires AllInOrder(files) && Closed(files, lo, hi)
    requires IsLargest(Overlapping(files, lo, hi), k) && f in files
    ensures !IsBoundary(f, k)
  {
    var g :| g in Overlapping(files, lo, hi) && g.largest == k;
    OverlappingIff(files, lo, hi, g);
    OverlappingIff(files, lo, hi, f);
    assert Contains(lo, hi, Some(g.smallest.user), Some(g.largest.user));
  }

  lemma ClosedMaySink(files: seq<FileMeta>, lo: Bound, hi: Bound)
    requires AllInOrder(files) && Closed(files, lo, hi)
    ensures MaySink(files, Overlapping(files, lo, hi))
  {
    forall f, d | f in files && f !in Overlapping(files, lo, hi) && d in Overlapping(files, lo, hi)
      ensures KeepsAhead(f, d)
    {
      OverlappingIff(files, lo, hi, f);
      OverlappingIff(files, lo, hi, d);
    }
  }

  lemma SliceKeepsAhead(files: seq<FileMeta>, b: nat, i: nat, j: nat)
    requires DisjointSorted(files) && j < b <= |files| && i < |files| && (i < j || b <= i)
    requires NoBoundary(files, files[b - 1].largest)
    ensures KeepsAhead(files[i], files[j])
  {
    if b <= i {
      assert files[b - 1] in files && files[i] in files;
      assert Less(files[b - 1].largest, files[i].smallest);
      assert j == b - 1 || Less(files[j].largest, files[b - 1].smallest);
      assert !IsBoundary(files[i], files[b - 1].largest);
    } else {
      assert Less(files[i].largest, files[j].smallest);
    }
  }

  /** Consecutive files without a boundary file may sink. */
  lemma SliceMaySink(files: seq<FileMeta>, inputs: seq<FileMeta>, k: InternalKey)
    requires DisjointSorted(files) && IsSlice(inputs, files) && IsLargest(inputs, k) && NoBoundary(files, k)
    ensures MaySink(files, inputs)
  {
    hide DisjointSorted, NoBoundary, KeepsAhead;
    var a, b :| 0 <= a <= b <= |files| && inputs == files[a..b];
    SliceLargest(files, a, b, k);
    assert forall i :: a <= i < b ==> files[i] in inputs;
    forall f, d | f in files && f !in inputs && d in inputs
      ensures KeepsAhead(f, d)
    {
      var i :| 0 <= i < |files| && files[i] == f;
      var j :| a <= j < b && files[j] == d;
      SliceKeepsAhead(files, b, i, j);
    }
  }

  // ------------------------------------------------------------------ completing the inputs

  /** What AddBoundaryInputs makes of selected inputs may sink and is still selected. */
  lemma BoundaryMaySink(v: Version, level: nat, inputs: seq<FileMeta>, r: seq<FileMeta>, k: InternalKey)
    requires LevelsOk(v) && level < NUM_LEVELS && Selected(v, level, inputs) && inputs != []
    requires IsLargest(r, k) && NoBoundary(v[level], k)
    requires level > 0 ==> IsSlice(r, v[level])
    requires r == inputs || exists f, l :: f in v[level] && IsLargest(inputs, l) && IsBoundary(f, l)
    ensures MaySink(v[level], r)
    ensures level == 0 ==> r == inputs
  {
    if level == 0 {
      var lo, hi :| Closed(v[0], lo, hi) && inputs == Overlapping(v[0], lo, hi);
      if f, l :| f in v[level] && IsLargest(inputs, l) && IsBoundary(f, l) {
        ClosedHasNoBoundary(v[0], lo, hi, l, f);
      }
      ClosedMaySink(v[0], lo, hi);
    } else {
      SliceMaySink(v[level], r, k);
    }
  }

  /** What AddBoundaryInputs makes of some inputs: with files of the level added, none
      goes on with the largest user key, and nothing is added that need not be. */
  ghost predicate Completed(files: seq<FileMeta>, inputs: seq<FileMeta>, r: seq<FileMeta>) {
    && inputs <= r && (forall f :: f in r ==> f in inputs || f in files)
    && (exists k :: IsLargest(r, k) && NoBoundary(files, k))
    && (r == inputs || exists f, l :: f in files && IsLargest(inputs, l) && IsBoundary(f, l))
  }

  /** AddBoundaryInputs, applied to selected inputs of a version. */
  method CompleteUpper(v: Version, level: nat, inputs: seq<FileMeta>) returns (r: seq<FileMeta>)
    requires LevelsOk(v) && level < NUM_LEVELS && Selected(v, level, inputs) && inputs != []
    requires forall f :: f in inputs ==> f in v[level]
    ensures inputs <= r && (forall f :: f in r ==> f in v[level])
    ensures Selected(v, level, r) && MaySink(v[level], r) && Completed(v[level], inputs, r)
  {
    ghost var k;
    assert AllInOrder(v[level]);
    r, k := AddBoundaryInputs(v[level], inputs);
    BoundaryMaySink(v, level, inputs, r, k);
  }

  /** Where no file overlaps a range, none overlaps the least closed range around it. */
  lemma NothingWider(files: seq<FileMeta>, begin: Bound, end: Bound, lo: Bound, hi: Bound)
    requires LeastClosed(files, begin, end, lo, hi)
    ensures (forall f :: f in files ==> !Overlaps(f, begin, end)) ==> forall f :: f in files ==> !Overlaps(f, lo, hi)
  {
    if forall f :: f in files ==> !Overlaps(f, begin, end) {
      assert Closed(files, begin, end) && Contains(begin, end, begin, end);
    }
  }

  /** What GetOverlappingInputs selects of a level. */
  ghost predicate SelectedBy(v: Version, level: nat, begin: Bound, end: Bound, r: seq<FileMeta>)
    requires level < |v|
  {
    if level == 0 then OverlapsLeast(v[0], begin, end, r) else r == Overlapping(v[level], begin, end)
  }

  /** GetOverlappingInputs, applied to a level of a version. */
  method SelectOverlapping(v: Version, level: nat, begin: Bound, end: Bound) returns (r: seq<FileMeta>)
    requires LevelsOk(v) && level < NUM_LEVELS
    ensures Selected(v, level, r) && (forall f :: f in r ==> f in v[level])
    ensures SelectedBy(v, level, begin, end, r)
    ensures level > 0 ==> r == Overlapping(v[level], begin, end)
    ensures forall f :: f in v[level] && Overlaps(f, begin, end) ==> f in r
    ensures r == [] <==> forall f :: f in v[level] ==> !Overlaps(f, begin, end)
  {
    ghost var lo, hi;
    r, lo, hi := GetOverlappingInputs(level, v[level], begin, end);
    forall f
      ensures f in r <==> f in v[level] && Overlaps(f, lo, hi)
    {
      OverlappingIff(v[level], lo, hi, f);
    }
    assert r != [] ==> r[0] in r;
    if level == 0 {
      NothingWider(v[0], begin, end, lo, hi);
    }
    if level > 0 {
      ghost var a, b := OverlappingIsSlice(v[level], lo, hi);
    }
  }

  lemma LevelInOrder(v: Version, level: nat)
    requires LevelsOk(v) && level < NUM_LEVELS
    ensures AllInOrder(v[level])
  {
  }

  /** Files overlap the range they span with others. */
  lemma InOwnRange(files: seq<FileMeta>, a: seq<FileMeta>, b: seq<FileMeta>, s: InternalKey, l: InternalKey)
    requires AllInOrder(files) && (forall f :: f in a ==> f in files) && IsSmallest(a + b, s) && IsLargest(a + b, l)
    ensures forall f :: f in a ==> Overlaps(f, Some(s.user), Some(l.user))
  {
    forall f | f in a
      ensures Overlaps(f, Some(s.user), Some(l.user))
    {
      assert f in a + b && InOrder(f);
    }
  }

  /** Upper inputs that may sink. */
  ghost predicate UpperOk(v: Version, level: nat, inputs0: seq<FileMeta>)
    requires level < |v|
  {
    && inputs0 != [] && (forall f :: f in inputs0 ==> f in v[level])
    && Selected(v, level, inputs0) && MaySink(v[level], inputs0)
  }

  /** SetupOtherInputs: closes the upper inputs over shared boundary user keys, adds the
      overlapping files of the next level, and takes a larger set of upper inputs when
      that does not bring in more files of the next level.  The level's compaction pointer
      will move to the largest key of the upper inputs. */
  method SetupOtherInputs(options: Options, v: Version, level: nat, inputs: seq<FileMeta>) returns (c: Inputs)
    requires LevelsOk(v) && level + 1 < NUM_LEVELS && Selected(v, level, inputs) && inputs != []
    requires forall f :: f in inputs ==> f in v[level]
    ensures InputsOk(v, c) && c.level == level
    ensures (forall f :: f in inputs ==> f in c.inputs0) && IsLargest(c.inputs0, c.pointer) && GrandparentsOk(v, c)
    ensures Chosen(options, v, level, inputs, c.inputs0, c.inputs1)
  {
    hide MaySink, Selected, IsSlice, IsSmallest, IsLargest, DisjointSorted, AllInOrder, Overlapping, CoversNext, Overlaps,
         Completed, SelectedBy, Chosen, Widened, InputsOk, GrandparentsOk;
    var inputs0 := CompleteUpper(v, level, inputs);
    assert forall f :: f in inputs ==> f in inputs0;
    var smallest, largest := GetRange(inputs0);
    var inputs1 := SelectOverlapping(v, level + 1, Some(smallest.user), Some(largest.user));
    CoversNextBy(v[level + 1], inputs0, inputs1, smallest, largest);
    var allStart, allLimit := GetRange(inputs0 + inputs1);
    ghost var first0, first1, wide0, wide1: seq<FileMeta> := inputs0, inputs1, [], [];
    if inputs1 != [] {
      var larger;
      inputs0, inputs1, largest, larger, wide0, wide1 :=
        Expand(options, v, level, inputs0, inputs1, largest, allStart, allLimit);
      if larger {
        allStart, allLimit := GetRange(inputs0 + inputs1);
      }
    }
    c := AddGrandparents(v, level, inputs0, inputs1, largest, allStart, allLimit);
    ChosenBy(options, v, level, inputs, first0, first1, wide0, wide1, inputs0, inputs1);
  }

  /** All files of the upper level in the range of some files, completed. */
  ghost predicate Widened(v: Version, level: nat, files: seq<FileMeta>, r: seq<FileMeta>)
    requires level < |v|
  {
    exists s, l, selected :: WidenedFrom(v, level, files, s, l, selected, r)
  }

  ghost predicate WidenedFrom(v: Version, level: nat, files: seq<FileMeta>, s: InternalKey, l: InternalKey,
                              selected: seq<FileMeta>, r: seq<FileMeta>)
    requires level < |v|
  {
    && IsSmallest(files, s) && IsLargest(files, l) && SelectedBy(v, level, Some(s.user), Some(l.user), selected)
    && if selected == [] then r == [] else Completed(v[level], selected, r)
  }

  /** The wider inputs are taken if they are more, not too big, and bring in no more files
      of the next level. */
  predicate MayWiden(options: Options, first0: seq<FileMeta>, first1: seq<FileMeta>, wide0: seq<FileMeta>, wide1: seq<FileMeta>) {
    WorthWidening(options, first0, first1, wide0) && |wide1| == |first1|
  }

  predicate WorthWidening(options: Options, first0: seq<FileMeta>, first1: seq<FileMeta>, wide0: seq<FileMeta>) {
    && first1 != [] && |wide0| > |first0|
    && TotalFileSize(first1) + TotalFileSize(wide0) < options.ExpandedCompactionByteSizeLimit()
  }

  /** The given inputs, completed, with the files of the next level that they overlap, and
      the wider ones. */
  ghost predicate Sets(options: Options, v: Version, level: nat, inputs: seq<FileMeta>, first0: seq<FileMeta>, first1: seq<FileMeta>,
                       wide0: seq<FileMeta>, wide1: seq<FileMeta>)
    requires level + 1 < |v|
  {
    && Completed(v[level], inputs, first0) && CoversNext(v[level + 1], first0, first1)
    && (first1 != [] ==> Widened(v, level, first0 + first1, wide0))
    && (WorthWidening(options, first0, first1, wide0) ==> CoversNext(v[level + 1], wide0, wide1))
  }

  /** How SetupOtherInputs comes to its inputs: the given ones, completed, with the files of
      the next level they overlap, or the wider ones. */
  ghost predicate Chosen(options: Options, v: Version, level: nat, inputs: seq<FileMeta>, inputs0: seq<FileMeta>, inputs1: seq<FileMeta>)
    requires level + 1 < |v|
  {
    exists first0, first1, wide0, wide1 ::
      && Sets(options, v, level, inputs, first0, first1, wide0, wide1)
      && (inputs0, inputs1) == if MayWiden(options, first0, first1, wide0, wide1) then (wide0, wide1) else (first0, first1)
  }

  lemma ChosenBy(options: Options, v: Version, level: nat, inputs: seq<FileMeta>, first0: seq<FileMeta>, first1: seq<FileMeta>,
                 wide0: seq<FileMeta>, wide1: seq<FileMeta>, inputs0: seq<FileMeta>, inputs1: seq<FileMeta>)
    requires level + 1 < |v| && Sets(options, v, level, inputs, first0, first1, wide0, wide1)
    requires (inputs0, inputs1) == if MayWiden(options, first0, first1, wide0, wide1) then (wide0, wide1) else (first0, first1)
    ensures Chosen(options, v, level, inputs, inputs0, inputs1)
  {
  }

  lemma WidenedBy(v: Version, level: nat, files: seq<FileMeta>, s: InternalKey, l: InternalKey, selected: seq<FileMeta>, r: seq<FileMeta>)
    requires level < |v| && IsSmallest(files, s) && IsLargest(files, l) && SelectedBy(v, level, Some(s.user), Some(l.user), selected)
    requires if selected == [] then r == [] else Completed(v[level], selected, r)
    ensures Widened(v, level, files, r)
  {
    assert WidenedFrom(v, level, files, s, l, selected, r);
  }

  /** The grandparents are the files two levels down that overlap the inputs. */
  ghost predicate GrandparentsOk(v: Version, c: Inputs)
    requires |v| == NUM_LEVELS
  {
    exists s, l :: IsSmallest(c.inputs0 + c.inputs1, s) && IsLargest(c.inputs0 + c.inputs1, l) &&
                   c.grandparents == if c.level + 2 < NUM_LEVELS then Overlapping(v[c.level + 2], Some(s.user), Some(l.user)) else []
  }

  lemma GrandparentsBy(v: Version, c: Inputs, s: InternalKey, l: InternalKey)
    requires |v| == NUM_LEVELS && IsSmallest(c.inputs0 + c.inputs1, s) && IsLargest(c.inputs0 + c.inputs1, l)
    requires c.grandparents == if c.level + 2 < NUM_LEVELS then Overlapping(v[c.level + 2], Some(s.user), Some(l.user)) else []
    ensures GrandparentsOk(v, c)
  {
  }

  /** The last part of SetupOtherInputs: the files two levels down. */
  method AddGrandparents(v: Version, level: nat, inputs0: seq<FileMeta>, inputs1: seq<FileMeta>, largest: InternalKey,
                         allStart: InternalKey, allLimit: InternalKey)
    returns (c: Inputs)
    requires LevelsOk(v) && level + 1 < NUM_LEVELS && UpperOk(v, level, inputs0) && CoversNext(v[level + 1], inputs0, inputs1)
    requires IsSmallest(inputs0 + inputs1, allStart) && IsLargest(inputs0 + inputs1, allLimit)
    ensures InputsOk(v, c) && GrandparentsOk(v, c)
    ensures c.level == level && c.inputs0 == inputs0 && c.inputs1 == inputs1 && c.pointer == largest
  {
    hide MaySink, Selected, IsSmallest, IsLargest, DisjointSorted, AllInOrder, Overlapping, CoversNext, Overlaps, SelectedBy;
    var grandparents := [];
    if level + 2 < NUM_LEVELS {
      grandparents := SelectOverlapping(v, level + 2, Some(allStart.user), Some(allLimit.user));
    }
    c := Inputs(level, inputs0, inputs1, grandparents, largest);
    GrandparentsBy(v, c, allStart, allLimit);
  }

  /** Takes all files of the upper level in the range of the inputs, unless that makes
      the compaction too big or brings in more files of the next level. */
  method Expand(options: Options, v: Version, level: nat, inputs0: seq<FileMeta>, inputs1: seq<FileMeta>, largest: InternalKey,
                allStart: InternalKey, allLimit: InternalKey)
    returns (r0: seq<FileMeta>, r1: seq<FileMeta>, largest': InternalKey, larger: bool,
             ghost wide0: seq<FileMeta>, ghost wide1: seq<FileMeta>)
    requires LevelsOk(v) && level + 1 < NUM_LEVELS && UpperOk(v, level, inputs0) && IsLargest(inputs0, largest)
    requires CoversNext(v[level + 1], inputs0, inputs1) && IsSmallest(inputs0 + inputs1, allStart) && IsLargest(inputs0 + inputs1, allLimit)
    ensures UpperOk(v, level, r0) && IsLargest(r0, largest') && CoversNext(v[level + 1], r0, r1)
    ensures forall f :: f in inputs0 ==> f in r0
    requires inputs1 != []
    ensures Widened(v, level, inputs0 + inputs1, wide0)
    ensures WorthWidening(options, inputs0, inputs1, wide0) ==> CoversNext(v[level + 1], wide0, wide1)
    ensures larger == MayWiden(options, inputs0, inputs1, wide0, wide1)
    ensures (r0, r1) == if larger then (wide0, wide1) else (inputs0, inputs1)
  {
    hide MaySink, Selected, IsSlice, IsSmallest, IsLargest, DisjointSorted, AllInOrder, Overlapping, CoversNext, Overlaps,
         Completed, SelectedBy, Widened;
    r0, r1, largest', larger := inputs0, inputs1, largest, false;
    wide1 := [];
    LevelInOrder(v, level);
    InOwnRange(v[level], inputs0, inputs1, allStart, allLimit);
    var expanded0 := SelectOverlapping(v, level, Some(allStart.user), Some(allLimit.user));
    assert forall f :: f in inputs0 ==> f in expanded0;
    ghost var selected := expanded0;
    if expanded0 != [] {
      expanded0 := CompleteUpper(v, level, expanded0);
    }
    wide0 := expanded0;
    WidenedBy(v, level, inputs0 + inputs1, allStart, allLimit, selected, wide0);
    if |expanded0| > |inputs0| &&
       TotalFileSize(inputs1) + TotalFileSize(expanded0) < options.ExpandedCompactionByteSizeLimit() {
      var newStart, newLimit := GetRange(expanded0);
      var expanded1 := SelectOverlapping(v, level + 1, Some(newStart.user), Some(newLimit.user));
      wide1 := expanded1;
      CoversNextBy(v[level + 1], expanded0, expanded1, newStart, newLimit);
      if |expanded1| == |inputs1| {
        r0, r1, largest', larger := expanded0, expanded1, newLimit, true;
      }
    }
  }

  predicate IsTrivialMove(options: Options, c: Inputs) {
    |c.inputs0| == 1 && |c.inputs1| == 0 && TotalFileSize(c.grandparents) <= options.MaxGrandParentOverlapBytes()
  }

  /** CompactRange: the inputs of a manual compaction are all files of the level that
      overlap the range, or, above level 0, the first of them up to a size. */
  method CompactRange(options: Options, v: Version, level: nat, begin: Bound, end: Bound) returns (c: Option<Inputs>)
    requires LevelsOk(v) && level + 1 < NUM_LEVELS
    ensures c.Some? ==> InputsOk(v, c.value) && c.value.level == level
    ensures c.None? <==> forall f :: f in v[level] ==> !Overlaps(f, begin, end)
    ensures c.Some? ==> TakesRange(options, v, begin, end, c.value)
  {
    hide Selected, IsSlice, Overlapping, Overlaps, DisjointSorted, AllInOrder, InputsOk, Cut, Chosen, GrandparentsOk, IsLargest;
    var inputs := SelectOverlapping(v, level, begin, end);
    if inputs == [] {
      return None;
    }
    if level > 0 {
      ghost var all := inputs;
      inputs := CutToSize(options, inputs);
      CutIsSlice(options, v, level, all, inputs);
    }
    var setup := SetupOtherInputs(options, v, level, inputs);
    assert SetUp(options, v, inputs, setup);
    return Some(setup);
  }

  /** The files up to the one that brings their sizes to the limit. */
  ghost predicate Cut(options: Options, all: seq<FileMeta>, inputs: seq<FileMeta>) {
    && inputs <= all && (all != [] ==> inputs != [])
    && (forall n :: 0 < n < |inputs| ==> TotalFileSize(inputs[..n]) < options.maxFileSize)
    && (inputs == all || TotalFileSize(inputs) >= options.maxFileSize)
  }

  /** The files of a level that a manual compaction starts from. */
  ghost predicate RangeStart(options: Options, v: Version, level: nat, begin: Bound, end: Bound, inputs: seq<FileMeta>)
    requires level < |v|
  {
    if level == 0 then SelectedBy(v, 0, begin, end, inputs) else Cut(options, Overlapping(v[level], begin, end), inputs)
  }

  /** What SetupOtherInputs makes of some files of a level. */
  ghost predicate SetUp(options: Options, v: Version, inputs: seq<FileMeta>, c: Inputs)
    requires |v| == NUM_LEVELS && c.level + 1 < NUM_LEVELS
  {
    && (forall f :: f in inputs ==> f in c.inputs0) && Chosen(options, v, c.level, inputs, c.inputs0, c.inputs1)
    && GrandparentsOk(v, c) && IsLargest(c.inputs0, c.pointer)
  }

  ghost predicate TakesRange(options: Options, v: Version, begin: Bound, end: Bound, c: Inputs)
    requires |v| == NUM_LEVELS && c.level + 1 < NUM_LEVELS
  {
    exists inputs :: RangeStart(options, v, c.level, begin, end, inputs) && SetUp(options, v, inputs, c)
  }

  method CutToSize(options: Options, all: seq<FileMeta>) returns (inputs: seq<FileMeta>)
    ensures Cut(options, all, inputs)
  {
    var total := 0;
    for i := 0 to |all|
      invariant total == TotalFileSize(all[..i])
      invariant forall n :: 0 < n <= i ==> TotalFileSize(all[..n]) < options.maxFileSize
    {
      assert all[..i + 1][..i] == all[..i];
      total := total + all[i].size;
      if total >= options.maxFileSize {
        inputs := all[..i + 1];
        assert forall n :: 0 < n <= i ==> inputs[..n] == all[..n];
        return;
      }
    }
    assert all[..|all|] == all;
    inputs := all;
  }

  lemma CutIsSlice(options: Options, v: Version, level: nat, all: seq<FileMeta>, inputs: seq<FileMeta>)
    requires 0 < level < |v| && Selected(v, level, all) && Cut(options, all, inputs) && forall f :: f in all ==> f in v[level]
    ensures Selected(v, level, inputs) && (all != [] ==> inputs != []) && forall f :: f in inputs ==> f in v[level]
  {
    if all == [] {
      assert inputs == [];
    } else {
      assert inputs == all[..|inputs|];
      SliceOfSlice(v[level], all, inputs);
    }
  }

  lemma SliceOfSlice(files: seq<FileMeta>, all: seq<FileMeta>, inputs: seq<FileMeta>)
    requires IsSlice(all, files)
    requires exists n :: 0 < n <= |all| && inputs == all[..n]
    ensures IsSlice(inputs, files)
  {
    var a, b :| 0 <= a <= b <= |files| && all == files[a..b];
    var n :| 0 < n <= |all| && inputs == all[..n];
    assert inputs == files[a..a + n];
  }

  // ------------------------------------------------------------------ picking a compaction

  const L0_COMPACTION_TRIGGER := 4

  /** The byte limit of a level: 10 MB for levels 0 and 1, ten times more for each further one. */
  function MaxBytesForLevel(level: nat): (r: real)
    ensures r > 0.0
  {
    if level <= 1 then 10.0 * 1048576.0 else 10.0 * MaxBytesForLevel(level - 1)
  }

  /** How full a level is: level 0 by its number of files, the others by bytes. */
  function Score(v: Version, level: nat): (r: real)
    requires level < |v|
    ensures r >= 1.0 ==> v[level] != []
  {
    if level == 0 then |v[0]| as real / L0_COMPACTION_TRIGGER as real
    else TotalFileSize(v[level]) as real / MaxBytesForLevel(level)
  }

  /** Finalize: the first of the fullest levels, never the last level. */
  method Finalize(v: Version) returns (bestLevel: nat, bestScore: real)
    requires |v| == NUM_LEVELS
    ensures bestLevel < NUM_LEVELS - 1 && bestScore == Score(v, bestLevel)
    ensures forall l :: 0 <= l < NUM_LEVELS - 1 ==> Score(v, l) <= bestScore
    ensures forall l :: 0 <= l < bestLevel ==> Score(v, l) < bestScore
  {
    var level := -1;
    bestScore := -1.0;
    for l := 0 to NUM_LEVELS - 1
      invariant -1 <= level < l && (level == -1 <==> l == 0)
      invariant level == -1 ==> bestScore == -1.0
      invariant level >= 0 ==> bestScore == Score(v, level)
      invariant forall k :: 0 <= k < l ==> Score(v, k) <= bestScore
      invariant forall k :: 0 <= k < level ==> Score(v, k) < bestScore
    {
      var score := Score(v, l);
      assert score >= 0.0 by {
        ScoreNonNegative(v, l);
      }
      if score > bestScore {
        level, bestScore := l, score;
      }
    }
    bestLevel := level;
  }

  lemma ScoreNonNegative(v: Version, level: nat)
    requires level < |v|
    ensures Score(v, level) >= 0.0
  {
    var n, m := TotalFileSize(v[level]) as real, MaxBytesForLevel(level);
    assert n / m >= 0.0;
  }

  /** A file that reads have made worth compacting, with its level. */
  datatype SeekFile = SeekFile(level: nat, file: FileMeta)

  ghost predicate SeekFileOk(v: Version, f: Option<SeekFile>) {
    f.Some? ==> f.value.level + 1 < NUM_LEVELS == |v| && f.value.file in v[f.value.level]
  }

  /** The first file that comes after the level's compaction pointer, or the first file. */
  function NextInLine(files: seq<FileMeta>, pointer: Option<InternalKey>): FileMeta
    requires files != []
  {
    var i := FirstAfter(files, pointer);
    if i < |files| then files[i] else files[0]
  }

  function FirstAfter(files: seq<FileMeta>, pointer: Option<InternalKey>): (i: nat)
    ensures i <= |files|
    ensures i < |files| ==> pointer.None? || Less(pointer.value, files[i].largest)
    ensures forall j :: 0 <= j < i ==> pointer.Some? && !Less(pointer.value, files[j].largest)
  {
    if files == [] || pointer.None? || Less(pointer.value, files[0].largest) then 0
    else 1 + FirstAfter(files[1..], pointer)
  }

  /** The first of the fullest levels. */
  ghost predicate Fullest(v: Version, level: nat)
    requires |v| == NUM_LEVELS
  {
    && level < NUM_LEVELS - 1
    && (forall l :: 0 <= l < NUM_LEVELS - 1 ==> Score(v, l) <= Score(v, level))
    && (forall l :: 0 <= l < level ==> Score(v, l) < Score(v, level))
  }

  /** What a compaction of one file starts from: at level 0 all files that overlap it
      come along. */
  ghost predicate FileStart(v: Version, level: nat, f: FileMeta, inputs: seq<FileMeta>)
    requires level < |v|
  {
    f in inputs && if level == 0 then SelectedBy(v, 0, Some(f.smallest.user), Some(f.largest.user), inputs) else inputs == [f]
  }

  ghost predicate TakesFile(options: Options, v: Version, f: FileMeta, c: Inputs)
    requires |v| == NUM_LEVELS && c.level + 1 < NUM_LEVELS
  {
    exists inputs :: FileStart(v, c.level, f, inputs) && SetUp(options, v, inputs, c)
  }

  /** Too much data in a level comes first, and the file next in line there; then a file
      hit by seeks. */
  ghost predicate Picks(options: Options, v: Version, pointers: seq<Option<InternalKey>>, seekFile: Option<SeekFile>, c: Inputs)
    requires |v| == NUM_LEVELS && |pointers| == NUM_LEVELS
  {
    && c.level + 1 < NUM_LEVELS
    && if OverLimit(v) then
         && Fullest(v, c.level) && v[c.level] != []
         && TakesFile(options, v, NextInLine(v[c.level], pointers[c.level]), c)
       else seekFile.Some? && c.level == seekFile.value.level && TakesFile(options, v, seekFile.value.file, c)
  }

  /** PickCompaction: chooses a file and completes the inputs as SetupOtherInputs does. */
  method PickCompaction(options: Options, v: Version, pointers: seq<Option<InternalKey>>, seekFile: Option<SeekFile>)
    returns (c: Option<Inputs>)
    requires LevelsOk(v) && |pointers| == NUM_LEVELS && SeekFileOk(v, seekFile)
    ensures c.None? <==> seekFile.None? && !OverLimit(v)
    ensures c.Some? ==> InputsOk(v, c.value)
    ensures c.Some? ==> Picks(options, v, pointers, seekFile, c.value)
  {
    hide DisjointSorted, AllInOrder, InputsOk, IsSlice, IsLargest, Score, TakesFile, NextInLine;
    var level, score := Finalize(v);
    var picked: FileMeta;
    if score >= 1.0 {
      FullIsNotEmpty(v, level);
      picked := PickNext(v[level], pointers[level]);
    } else if seekFile.Some? {
      level, picked := seekFile.value.level, seekFile.value.file;
    } else {
      return None;
    }
    OneFileSlice(v[level], picked);
    var setup := SetupPicked(options, v, level, [picked]);
    return Some(setup);
  }

  /** Some level has more than it should. */
  ghost predicate OverLimit(v: Version)
    requires |v| == NUM_LEVELS
  {
    exists l :: 0 <= l < NUM_LEVELS - 1 && Score(v, l) >= 1.0
  }

  lemma FullAt(v: Version, l: nat, bytes: nat)
    requires 0 < l < |v| && MaxBytesForLevel(l) == bytes as real
    ensures Score(v, l) >= 1.0 <==> TotalFileSize(v[l]) >= bytes
  {
    hide MaxBytesForLevel, TotalFileSize;
    AtLeastWhole(TotalFileSize(v[l]) as real, MaxBytesForLevel(l));
  }

  lemma AtLeastWhole(n: real, m: real)
    requires m > 0.0
    ensures n / m >= 1.0 <==> n >= m
  {
    var q := n / m;
    assert q * m == n;
    if q >= 1.0 {
      assert (q - 1.0) * m >= 0.0;
    } else {
      assert (1.0 - q) * m > 0.0;
    }
  }

  /** A level is over its limit with four files on level 0, ten megabytes on level 1, and ten
      times more on each further one. */
  lemma OverLimitIs(v: Version)
    requires |v| == NUM_LEVELS
    ensures OverLimit(v) <==>
              || |v[0]| >= 4 || TotalFileSize(v[1]) >= 10_485_760 || TotalFileSize(v[2]) >= 104_857_600
              || TotalFileSize(v[3]) >= 1_048_576_000 || TotalFileSize(v[4]) >= 10_485_760_000
              || TotalFileSize(v[5]) >= 104_857_600_000
  {
    FullAt(v, 1, 10_485_760);
    FullAt(v, 2, 104_857_600);
    FullAt(v, 3, 1_048_576_000);
    FullAt(v, 4, 10_485_760_000);
    FullAt(v, 5, 104_857_600_000);
    assert Score(v, 0) >= 1.0 <==> |v[0]| >= 4;
    hide Score, TotalFileSize;
    assert OverLimit(v) <==> Score(v, 0) >= 1.0 || Score(v, 1) >= 1.0 || Score(v, 2) >= 1.0 || Score(v, 3) >= 1.0
                             || Score(v, 4) >= 1.0 || Score(v, 5) >= 1.0;
  }

  method PickNext(files: seq<FileMeta>, pointer: Option<InternalKey>) returns (f: FileMeta)
    requires files != []
    ensures f == NextInLine(files, pointer) && f in files
  {
    for i := 0 to |files|
      invariant i <= FirstAfter(files, pointer)
    {
      if pointer.None? || Less(pointer.value, files[i].largest) {
        return files[i];
      }
    }
    // wrap around to the beginning of the key space
    return files[0];
  }

  lemma FullIsNotEmpty(v: Version, level: nat)
    requires |v| == NUM_LEVELS && level < NUM_LEVELS - 1 && Score(v, level) >= 1.0
    ensures v[level] != []
  {
  }

  lemma OneFileSlice(files: seq<FileMeta>, f: FileMeta)
    requires f in files
    ensures IsSlice([f], files)
  {
    var i :| 0 <= i < |files| && files[i] == f;
    assert files[i..i + 1] == [f];
  }

  /** The rest of PickCompaction, for the one file picked from a level: at level 0 all
      files that overlap it come along. */
  method SetupPicked(options: Options, v: Version, level: nat, picked: seq<FileMeta>) returns (c: Inputs)
    requires LevelsOk(v) && level + 1 < NUM_LEVELS && |picked| == 1 && IsSlice(picked, v[level])
    ensures InputsOk(v, c) && c.level == level && TakesFile(options, v, picked[0], c)
  {
    hide InputsOk, DisjointSorted, Selected, SelectedBy, Chosen, GrandparentsOk, IsSlice, Overlapping;
    var inputs := picked;
    SliceFiles(v[level], picked);
    if level == 0 {
      var smallest, largest := GetRange(inputs);
      PickedOverlaps(v[0], picked, smallest, largest);
      inputs := SelectOverlapping(v, 0, Some(smallest.user), Some(largest.user));
    } else {
      SliceSelected(v, level, picked);
    }
    assert picked == [picked[0]];
    c := SetupOtherInputs(options, v, level, inputs);
    assert FileStart(v, level, picked[0], inputs) && SetUp(options, v, inputs, c);
  }

  lemma SliceFiles(files: seq<FileMeta>, picked: seq<FileMeta>)
    requires IsSlice(picked, files)
    ensures forall f :: f in picked ==> f in files
  {
  }

  lemma SliceSelected(v: Version, level: nat, picked: seq<FileMeta>)
    requires 0 < level < |v| && IsSlice(picked, v[level])
    ensures Selected(v, level, picked)
  {
  }

  lemma PickedOverlaps(files: seq<FileMeta>, picked: seq<FileMeta>, s: InternalKey, l: InternalKey)
    requires AllInOrder(files) && |picked| == 1 && IsSlice(picked, files)
    requires IsSmallest(picked, s) && IsLargest(picked, l)
    ensures picked[0] in files && Overlaps(picked[0], Some(s.user), Some(l.user))
    ensures s == picked[0].smallest && l == picked[0].largest
  {
    hide IsSlice, IsSmallest, IsLargest;
    PickedIsThere(files, picked);
    OnlySmallest(picked, s);
    OnlyLargest(picked, l);
  }

  lemma PickedIsThere(files: seq<FileMeta>, picked: seq<FileMeta>)
    requires |picked| == 1 && IsSlice(picked, files)
    ensures picked[0] in files
  {
    var a, b :| 0 <= a <= b <= |files| && picked == files[a..b];
    assert picked[0] == files[a];
  }

  lemma OnlySmallest(picked: seq<FileMeta>, s: InternalKey)
    requires |picked| == 1 && IsSmallest(picked, s)
    ensures s == picked[0].smallest
  {
  }

  lemma OnlyLargest(picked: seq<FileMeta>, l: InternalKey)
    requires |picked| == 1 && IsLargest(picked, l)
    ensures l == picked[0].largest
  {
  }
}
