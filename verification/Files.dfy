/** Table files as a version sees them, and how version_set.cc searches and selects them. */
module Files {
  import opened Keys

  const NUM_LEVELS := 7
  const MAX_MEM_COMPACT_LEVEL := 2

  /** What a version knows of a table file. */
  datatype FileMeta = FileMeta(number: nat, size: nat, smallest: InternalKey, largest: InternalKey)

  predicate InOrder(f: FileMeta) {
    !Less(f.largest, f.smallest)
  }

  ghost predicate AllInOrder(files: seq<FileMeta>) {
    forall f :: f in files ==> InOrder(f)
  }

  /** The files of a level above 0: sorted, with pairwise disjoint key ranges. */
  ghost predicate DisjointSorted(files: seq<FileMeta>) {
    && AllInOrder(files)
    && forall i, j :: 0 <= i < j < |files| ==> Less(files[i].largest, files[j].smallest)
  }

  // ------------------------------------------------------------------ searching a level

  /** The binary search of FindFile: the first file whose largest key is at or after `key`. */
  method FindFile(files: seq<FileMeta>, key: InternalKey) returns (index: nat)
    requires DisjointSorted(files)
    ensures index <= |files|
    ensures forall i :: 0 <= i < index ==> Less(files[i].largest, key)
    ensures forall i :: index <= i < |files| ==> !Less(files[i].largest, key)
  {
    var left, right := 0, |files|;
    while left < right
      invariant 0 <= left <= right <= |files|
      invariant forall i :: 0 <= i < left ==> Less(files[i].largest, key)
      invariant forall i :: right <= i < |files| ==> !Less(files[i].largest, key)
    {
      var mid := (left + right) / 2;
      assert forall i :: 0 <= i < mid ==> Less(files[i].largest, files[mid].smallest);
      assert forall i :: mid < i < |files| ==> files[i] in files && Less(files[mid].largest, files[i].smallest);
      assert files[mid] in files;
      if Less(files[mid].largest, key) {
        left := mid + 1;
      } else {
        right := mid;
      }
    }
    return right;
  }

  /** A bound on user keys; None stands for the null pointer, no bound. */
  type Bound = Option<UserKey>

  predicate AfterFile(k: Bound, f: FileMeta) {
    k.Some? && k.value > f.largest.user
  }

  predicate BeforeFile(k: Bound, f: FileMeta) {
    k.Some? && k.value < f.smallest.user
  }

  predicate Overlaps(f: FileMeta, lo: Bound, hi: Bound) {
    !AfterFile(lo, f) && !BeforeFile(hi, f)
  }

  /** Does some file share a user key with the range?  A linear scan at level 0, a
      binary search where the files are sorted and disjoint. */
  method SomeFileOverlapsRange(disjointSorted: bool, files: seq<FileMeta>, lo: Bound, hi: Bound) returns (b: bool)
    requires disjointSorted ==> DisjointSorted(files)
    ensures b <==> exists f :: f in files && Overlaps(f, lo, hi)
  {
    if !disjointSorted {
      for i := 0 to |files|
        invariant forall j :: 0 <= j < i ==> !Overlaps(files[j], lo, hi)
      {
        if AfterFile(lo, files[i]) || BeforeFile(hi, files[i]) {
          // no overlap
        } else {
          assert files[i] in files && Overlaps(files[i], lo, hi);
          return true;
        }
      }
      return false;
    }
    var index := 0;
    if lo.Some? {
      index := FindFile(files, SeekKey(lo.value, MAX_SEQUENCE));
    }
    if index >= |files| {
      return false;
    }
    FirstDecides(files, lo, hi, index);
    return !BeforeFile(hi, files[index]);
  }

  /** When the file at `index` is the first that does not end before the range, it
      overlaps the range or no file does. */
  lemma FirstDecides(files: seq<FileMeta>, lo: Bound, hi: Bound, index: nat)
    requires DisjointSorted(files) && index < |files|
    requires forall i :: 0 <= i < |files| ==> (i < index <==> AfterFile(lo, files[i]))
    ensures !BeforeFile(hi, files[index]) <==> exists f :: f in files && Overlaps(f, lo, hi)
  {
    if BeforeFile(hi, files[index]) {
      forall i | 0 <= i < |files|
        ensures !Overlaps(files[i], lo, hi)
      {
        assert files[index] in files;
        assert i == index || i < index || Less(files[index].largest, files[i].smallest);
      }
    } else {
      assert files[index] in files && Overlaps(files[index], lo, hi);
    }
  }

  // ------------------------------------------------------------------ overlapping inputs

  /** The files that share a user key with the range, in order. */
  function Overlapping(files: seq<FileMeta>, lo: Bound, hi: Bound): seq<FileMeta> {
    if files == [] then [] else
    var rest, f := Overlapping(files[..|files| - 1], lo, hi), files[|files| - 1];
    if Overlaps(f, lo, hi) then rest + [f] else rest
  }

  lemma {:induction false} OverlappingIff(files: seq<FileMeta>, lo: Bound, hi: Bound, f: FileMeta)
    ensures f in Overlapping(files, lo, hi) <==> f in files && Overlaps(f, lo, hi)
  {
    if files != [] {
      OverlappingIff(files[..|files| - 1], lo, hi, f);
      assert files == files[..|files| - 1] + [files[|files| - 1]];
    }
  }

  predicate LeqLo(a: Bound, b: Bound) {
    a.None? || (b.Some? && a.value <= b.value)
  }

  predicate GeqHi(a: Bound, b: Bound) {
    a.None? || (b.Some? && a.value >= b.value)
  }

  predicate StartsBefore(f: FileMeta, lo: Bound) {
    lo.Some? && f.smallest.user < lo.value
  }

  predicate EndsAfter(f: FileMeta, hi: Bound) {
    hi.Some? && f.largest.user > hi.value
  }

  /** The range [lo, hi] contains the range [lo2, hi2]. */
  predicate Contains(lo: Bound, hi: Bound, lo2: Bound, hi2: Bound) {
    LeqLo(lo, lo2) && GeqHi(hi, hi2)
  }

  /** Every file that overlaps the range lies within it. */
  ghost predicate Closed(files: seq<FileMeta>, lo: Bound, hi: Bound) {
    forall f :: f in files && Overlaps(f, lo, hi) ==> Contains(lo, hi, Some(f.smallest.user), Some(f.largest.user))
  }

  /** Every closed range that contains [lo0, hi0] contains [lo, hi]. */
  ghost predicate WithinClosed(files: seq<FileMeta>, lo0: Bound, hi0: Bound, lo: Bound, hi: Bound) {
    && Contains(lo, hi, lo0, hi0)
    && forall l, h :: Closed(files, l, h) && Contains(l, h, lo0, hi0) ==> Contains(l, h, lo, hi)
  }

  /** The range [lo, hi] is the least closed range that contains [lo0, hi0]. */
  ghost predicate LeastClosed(files: seq<FileMeta>, lo0: Bound, hi0: Bound, lo: Bound, hi: Bound) {
    Closed(files, lo, hi) && WithinClosed(files, lo0, hi0, lo, hi)
  }

  /** The files that overlap the least closed range around [lo0, hi0]. */
  ghost predicate OverlapsLeast(files: seq<FileMeta>, lo0: Bound, hi0: Bound, inputs: seq<FileMeta>) {
    exists lo, hi :: LeastClosed(files, lo0, hi0, lo, hi) && inputs == Overlapping(files, lo, hi)
  }

  /** A file that overlaps the range belongs to every closed range around it. */
  lemma WidenBy(files: seq<FileMeta>, lo0: Bound, hi0: Bound, lo: Bound, hi: Bound, f: FileMeta)
    requires WithinClosed(files, lo0, hi0, lo, hi) && f in files && Overlaps(f, lo, hi)
    ensures StartsBefore(f, lo) ==> WithinClosed(files, lo0, hi0, Some(f.smallest.user), hi)
    ensures EndsAfter(f, hi) ==> WithinClosed(files, lo0, hi0, lo, Some(f.largest.user))
  {
    forall l, h | Closed(files, l, h) && Contains(l, h, lo0, hi0)
      ensures Contains(l, h, Some(f.smallest.user), Some(f.largest.user))
    {
      assert Contains(l, h, lo, hi);
      assert Overlaps(f, l, h);
    }
  }

  ghost function StartingBefore(files: seq<FileMeta>, lo: Bound): set<FileMeta> {
    set f | f in files && StartsBefore(f, lo)
  }

  ghost function EndingAfter(files: seq<FileMeta>, hi: Bound): set<FileMeta> {
    set f | f in files && EndsAfter(f, hi)
  }

  /** Moving a bound out to a file that sticks out leaves fewer files sticking out. */
  lemma FewerStickOut(files: seq<FileMeta>, lo: Bound, hi: Bound, f: FileMeta)
    requires f in files
    ensures StartsBefore(f, lo) ==> StartingBefore(files, Some(f.smallest.user)) < StartingBefore(files, lo)
    ensures EndsAfter(f, hi) ==> EndingAfter(files, Some(f.largest.user)) < EndingAfter(files, hi)
  {
    if StartsBefore(f, lo) {
      assert f in StartingBefore(files, lo) && f !in StartingBefore(files, Some(f.smallest.user));
    }
    if EndsAfter(f, hi) {
      assert f in EndingAfter(files, hi) && f !in EndingAfter(files, Some(f.largest.user));
    }
  }

  /** GetOverlappingInputs: above level 0 the files that overlap the range; at level 0,
      where the scan restarts with a wider range whenever a file sticks out, the files
      that overlap the least closed range, which is returned beside them. */
  method GetOverlappingInputs(level: nat, files: seq<FileMeta>, begin: Bound, end: Bound)
    returns (inputs: seq<FileMeta>, ghost lo: Bound, ghost hi: Bound)
    ensures inputs == Overlapping(files, lo, hi)
    ensures level > 0 ==> lo == begin && hi == end && inputs == Overlapping(files, begin, end)
    ensures level == 0 ==> LeastClosed(files, begin, end, lo, hi) && OverlapsLeast(files, begin, end, inputs)
  {
    assert WithinClosed(files, begin, end, begin, end);
    hide WithinClosed, StartingBefore, EndingAfter;
    inputs := [];
    var userBegin, userEnd := begin, end;
    var i := 0;
    while i < |files|
      invariant 0 <= i <= |files|
      invariant inputs == Overlapping(files[..i], userBegin, userEnd)
      invariant level > 0 ==> userBegin == begin && userEnd == end
      invariant userBegin.Some? <==> begin.Some?
      invariant userEnd.Some? <==> end.Some?
      invariant level == 0 ==> Closed(files[..i], userBegin, userEnd)
      invariant level == 0 ==> WithinClosed(files, begin, end, userBegin, userEnd)
      decreases StartingBefore(files, userBegin), EndingAfter(files, userEnd), |files| - i
    {
      var f := files[i];
      assert f in files;
      assert files[..i + 1] == files[..i] + [f];
      i := i + 1;
      var fileStart, fileLimit := f.smallest.user, f.largest.user;
      if begin.Some? && fileLimit < userBegin.value {
        // "f" is completely before the range
      } else if end.Some? && fileStart > userEnd.value {
        // "f" is completely after the range
      } else {
        inputs := inputs + [f];
        if level == 0 {
          FewerStickOut(files, userBegin, userEnd, f);
          WidenBy(files, begin, end, userBegin, userEnd, f);
          if begin.Some? && fileStart < userBegin.value {
            userBegin := Some(fileStart);
            inputs := [];
            i := 0;
          } else if end.Some? && fileLimit > userEnd.value {
            userEnd := Some(fileLimit);
            inputs := [];
            i := 0;
          }
        }
      }
    }
    assert files[..i] == files;
    lo, hi := userBegin, userEnd;
  }

  // ------------------------------------------------------------------ slices of a sorted level

  /** `r` is a run of consecutive files of the level. */
  ghost predicate IsSlice(r: seq<FileMeta>, files: seq<FileMeta>) {
    exists a, b :: 0 <= a <= b <= |files| && r == files[a..b]
  }

  lemma OverlapConvex(files: seq<FileMeta>, lo: Bound, hi: Bound, i: nat, m: nat, j: nat)
    requires DisjointSorted(files) && i < m < j < |files|
    requires Overlaps(files[i], lo, hi) && Overlaps(files[j], lo, hi)
    ensures Overlaps(files[m], lo, hi)
  {
    assert files[m] in files;
    assert Less(files[i].largest, files[m].smallest) && Less(files[m].largest, files[j].smallest);
  }

  lemma PrefixSorted(files: seq<FileMeta>, n: nat)
    requires DisjointSorted(files) && n <= |files|
    ensures DisjointSorted(files[..n])
  {
    assert forall f :: f in files[..n] ==> f in files;
  }

  /** The files from `a` to `b` are those of the first `n` that overlap. */
  predicate Spanned(files: seq<FileMeta>, lo: Bound, hi: Bound, n: nat, a: nat, b: nat)
    requires n <= |files|
  {
    a <= b <= n && forall i :: 0 <= i < n ==> (a <= i < b <==> Overlaps(files[i], lo, hi))
  }

  /** One more overlapping file follows directly on the ones before it. */
  lemma SpannedOn(files: seq<FileMeta>, lo: Bound, hi: Bound, n: nat, a: nat, b: nat)
    requires DisjointSorted(files) && n < |files| && Spanned(files, lo, hi, n, a, b)
    requires Overlaps(files[n], lo, hi)
    ensures Spanned(files, lo, hi, n + 1, if a == b then n else a, n + 1)
    ensures files[a..b] + [files[n]] == files[if a == b then n else a..n + 1]
  {
    hide DisjointSorted, Overlaps;
    if a < b < n {
      OverlapConvex(files, lo, hi, b - 1, b, n);
    }
  }

  lemma SpannedPrefix(files: seq<FileMeta>, lo: Bound, hi: Bound, n: nat, a: nat, b: nat)
    requires n <= |files| && Spanned(files[..n], lo, hi, n, a, b)
    ensures Spanned(files, lo, hi, n, a, b) && files[..n][a..b] == files[a..b]
  {
    hide Overlaps;
    assert forall i :: 0 <= i < n ==> files[..n][i] == files[i];
  }

  /** Above level 0 the overlapping files are consecutive. */
  lemma {:induction false} OverlappingIsSlice(files: seq<FileMeta>, lo: Bound, hi: Bound) returns (a: nat, b: nat)
    requires DisjointSorted(files)
    ensures Spanned(files, lo, hi, |files|, a, b) && Overlapping(files, lo, hi) == files[a..b]
  {
    hide DisjointSorted, Overlaps;
    a, b := 0, 0;
    if files != [] {
      var n := |files| - 1;
      PrefixSorted(files, n);
      a, b := OverlappingIsSlice(files[..n], lo, hi);
      SpannedPrefix(files, lo, hi, n, a, b);
      if Overlaps(files[n], lo, hi) {
        SpannedOn(files, lo, hi, n, a, b);
        a, b := if a == b then n else a, n + 1;
      }
    }
  }

  // ------------------------------------------------------------------ boundary files

  ghost predicate IsLargest(files: seq<FileMeta>, k: InternalKey) {
    && (exists f :: f in files && f.largest == k)
    && forall f :: f in files ==> !Less(k, f.largest)
  }

  method FindLargestKey(files: seq<FileMeta>) returns (k: Option<InternalKey>)
    ensures k.None? <==> files == []
    ensures k.Some? ==> IsLargest(files, k.value)
  {
    if files == [] {
      return None;
    }
    var largest := files[0].largest;
    for i := 1 to |files|
      invariant IsLargest(files[..i], largest)
    {
      assert files[..i + 1] == files[..i] + [files[i]];
      if Less(largest, files[i].largest) {
        largest := files[i].largest;
      }
      assert files[i] in files[..i + 1];
    }
    assert files[..|files|] == files;
    return Some(largest);
  }

  /** A boundary file of the key `k` lies after it and starts with its user key. */
  predicate IsBoundary(f: FileMeta, k: InternalKey) {
    Less(k, f.smallest) && f.smallest.user == k.user
  }

  ghost predicate NoBoundary(files: seq<FileMeta>, k: InternalKey) {
    forall f :: f in files ==> !IsBoundary(f, k)
  }

  method FindSmallestBoundaryFile(levelFiles: seq<FileMeta>, k: InternalKey) returns (r: Option<FileMeta>)
    ensures r.None? ==> NoBoundary(levelFiles, k)
    ensures r.Some? ==> r.value in levelFiles && IsBoundary(r.value, k)
    ensures r.Some? ==> forall f :: f in levelFiles && IsBoundary(f, k) ==> !Less(f.smallest, r.value.smallest)
  {
    r := None;
    for i := 0 to |levelFiles|
      invariant r.None? ==> NoBoundary(levelFiles[..i], k)
      invariant r.Some? ==> r.value in levelFiles && IsBoundary(r.value, k)
      invariant r.Some? ==> forall f :: f in levelFiles[..i] && IsBoundary(f, k) ==> !Less(f.smallest, r.value.smallest)
    {
      var f := levelFiles[i];
      assert levelFiles[..i + 1] == levelFiles[..i] + [f];
      if IsBoundary(f, k) {
        if r.None? || Less(f.smallest, r.value.smallest) {
          r := Some(f);
        }
      }
    }
    assert levelFiles[..|levelFiles|] == levelFiles;
  }

  /** On a sorted level the least boundary file of a slice is the file that follows it. */
  lemma BoundaryFollows(levelFiles: seq<FileMeta>, a: nat, b: nat, k: InternalKey, f: FileMeta)
    requires DisjointSorted(levelFiles) && a < b <= |levelFiles| && IsLargest(levelFiles[a..b], k)
    requires f in levelFiles && IsBoundary(f, k)
    requires forall g :: g in levelFiles && IsBoundary(g, k) ==> !Less(g.smallest, f.smallest)
    ensures b < |levelFiles| && f == levelFiles[b]
  {
    SliceLargest(levelFiles, a, b, k);
    forall i | 0 <= i < b
      ensures !Less(k, levelFiles[i].smallest)
    {
      assert levelFiles[i] in levelFiles && levelFiles[b - 1] in levelFiles;
      assert i < b - 1 ==> Less(levelFiles[i].largest, levelFiles[b - 1].smallest);
    }
    var j :| 0 <= j < |levelFiles| && levelFiles[j] == f;
    assert b <= j;
    var g := levelFiles[b];
    assert g in levelFiles && InOrder(g);
    assert Less(levelFiles[b - 1].largest, g.smallest);
    assert g == f || Less(g.largest, f.smallest);
    assert IsBoundary(g, k);
  }

  /** The largest key of a slice of a sorted level is the largest key of its last file. */
  lemma SliceLargest(files: seq<FileMeta>, a: nat, b: nat, k: InternalKey)
    requires DisjointSorted(files) && a < b <= |files| && IsLargest(files[a..b], k)
    ensures k == files[b - 1].largest
  {
    var last := files[b - 1];
    assert forall i :: a <= i < b - 1 ==> Less(files[i].largest, last.smallest);
    assert last in files[a..b] && last in files;
    var f :| f in files[a..b] && f.largest == k;
  }

  ghost function FilesAfter(files: seq<FileMeta>, k: InternalKey): set<FileMeta> {
    set f | f in files && Less(k, f.smallest)
  }

  lemma BoundaryIsLargest(files: seq<FileMeta>, k: InternalKey, f: FileMeta)
    requires IsLargest(files, k) && IsBoundary(f, k) && InOrder(f)
    ensures IsLargest(files + [f], f.largest)
  {
    assert f in files + [f];
  }

  lemma SliceExtends(levelFiles: seq<FileMeta>, files: seq<FileMeta>, k: InternalKey, f: FileMeta)
    requires DisjointSorted(levelFiles) && IsSlice(files, levelFiles) && IsLargest(files, k)
    requires f in levelFiles && IsBoundary(f, k)
    requires forall g :: g in levelFiles && IsBoundary(g, k) ==> !Less(g.smallest, f.smallest)
    ensures IsSlice(files + [f], levelFiles)
  {
    hide DisjointSorted, IsBoundary, Less;
    var a, b :| 0 <= a <= b <= |levelFiles| && files == levelFiles[a..b];
    BoundaryFollows(levelFiles, a, b, k, f);
    assert files + [f] == levelFiles[a..b + 1];
  }

  lemma FewerAfter(levelFiles: seq<FileMeta>, k: InternalKey, f: FileMeta)
    requires f in levelFiles && Less(k, f.smallest) && InOrder(f)
    ensures FilesAfter(levelFiles, f.largest) < FilesAfter(levelFiles, k)
  {
    assert f in FilesAfter(levelFiles, k) && f !in FilesAfter(levelFiles, f.largest);
  }

  /** AddBoundaryInputs: extends the inputs until no file of the level outside them
      starts with the user key of their largest key and lies after it.  A slice of a
      sorted level stays a slice, and inputs without a boundary file stay as they are. */
  method AddBoundaryInputs(levelFiles: seq<FileMeta>, files: seq<FileMeta>)
    returns (r: seq<FileMeta>, ghost k: InternalKey)
    requires AllInOrder(levelFiles)
    ensures files <= r && (files == [] ==> r == [])
    ensures forall f :: f in r ==> f in files || f in levelFiles
    ensures files != [] ==> IsLargest(r, k) && NoBoundary(levelFiles, k)
    ensures DisjointSorted(levelFiles) && IsSlice(files, levelFiles) ==> IsSlice(r, levelFiles)
    ensures r == files || exists f, l :: f in levelFiles && IsLargest(files, l) && IsBoundary(f, l)
  {
    hide IsLargest, IsSlice, DisjointSorted, NoBoundary, FilesAfter;
    r := files;
    var first := FindLargestKey(files);
    if first.None? {
      k := SeekKey(0.0, 0);
      return;
    }
    var largestKey := first.value;
    var continueSearching := true;
    while continueSearching
      invariant files <= r && IsLargest(r, largestKey)
      invariant forall f :: f in r ==> f in files || f in levelFiles
      invariant DisjointSorted(levelFiles) && IsSlice(files, levelFiles) ==> IsSlice(r, levelFiles)
      invariant r == files || exists f, l :: f in levelFiles && IsLargest(files, l) && IsBoundary(f, l)
      invariant !continueSearching ==> NoBoundary(levelFiles, largestKey)
      decreases FilesAfter(levelFiles, largestKey), continueSearching
    {
      var boundary := FindSmallestBoundaryFile(levelFiles, largestKey);
      if boundary.Some? {
        var f := boundary.value;
        FewerAfter(levelFiles, largestKey, f);
        BoundaryIsLargest(r, largestKey, f);
        if DisjointSorted(levelFiles) && IsSlice(files, levelFiles) {
          SliceExtends(levelFiles, r, largestKey, f);
        }
        r := r + [f];
        largestKey := f.largest;
      } else {
        continueSearching := false;
      }
    }
    k := largestKey;
  }

  // ------------------------------------------------------------------ ranges

  ghost predicate IsSmallest(files: seq<FileMeta>, k: InternalKey) {
    && (exists f :: f in files && f.smallest == k)
    && forall f :: f in files ==> !Less(f.smallest, k)
  }

  /** The minimal range that covers all files. */
  method GetRange(files: seq<FileMeta>) returns (smallest: InternalKey, largest: InternalKey)
    requires files != []
    ensures IsSmallest(files, smallest) && IsLargest(files, largest)
  {
    smallest, largest := files[0].smallest, files[0].largest;
    for i := 1 to |files|
      invariant IsSmallest(files[..i], smallest) && IsLargest(files[..i], largest)
    {
      var f := files[i];
      assert files[..i + 1] == files[..i] + [f];
      if Less(f.smallest, smallest) {
        smallest := f.smallest;
      }
      if Less(largest, f.largest) {
        largest := f.largest;
      }
      assert f in files[..i + 1];
    }
    assert files[..|files|] == files;
  }

  function TotalFileSize(files: seq<FileMeta>): nat {
    if files == [] then 0 else TotalFileSize(files[..|files| - 1]) + files[|files| - 1].size
  }
}
