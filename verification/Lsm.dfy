/** The contents of a version: which entries it stores, the ordering that makes reads
    level by level correct, and Version::Get. */
module Lsm {
  import opened Keys
  import opened History
  import opened Files
  import opened Compactions

  /** The table files on disk, by file number. */
  type Tables = map<nat, seq<Entry>>

  function Run(t: Tables, f: FileMeta): seq<Entry> {
    if f.number in t then t[f.number] else []
  }

  /** The file's table is a sorted run whose ends the version knows. */
  ghost predicate FileOk(t: Tables, f: FileMeta) {
    && Run(t, f) != [] && Sorted(Run(t, f))
    && f.smallest == Run(t, f)[0].key
    && f.largest == Run(t, f)[|Run(t, f)| - 1].key
  }

  /** For every user key, all entries of `a` are newer than all entries of `b`. */
  ghost predicate Above(a: seq<Entry>, b: seq<Entry>) {
    forall x, y :: x in a && y in b && x.key.user == y.key.user ==> x.key.sequence > y.key.sequence
  }

  /** The order of files in a level: by smallest key, then by number. */
  predicate BySmallest(f: FileMeta, g: FileMeta) {
    Less(f.smallest, g.smallest) || (f.smallest == g.smallest && f.number < g.number)
  }

  ghost predicate SortedFiles(files: seq<FileMeta>) {
    forall i, j :: 0 <= i < j < |files| ==> BySmallest(files[i], files[j])
  }

  /** A file number names one file of one level. */
  ghost predicate UniqueNumbers(v: Version) {
    forall l, m, f, g :: 0 <= l < |v| && 0 <= m < |v| && f in v[l] && g in v[m] && f.number == g.number ==>
      f == g && l == m
  }

  /** Newer places hold newer entries: level-0 files by number, then level by level. */
  ghost predicate Ordered(t: Tables, v: Version) {
    && (0 < |v| ==> forall f, g :: f in v[0] && g in v[0] && f.number > g.number ==> Above(Run(t, f), Run(t, g)))
    && forall l, m, f, g :: 0 <= l < m < |v| && f in v[l] && g in v[m] ==> Above(Run(t, f), Run(t, g))
  }

  ghost predicate VersionOk(t: Tables, v: Version) {
    && LevelsOk(v)
    && SortedFiles(v[0])
    && UniqueNumbers(v)
    && (forall l, f :: 0 <= l < |v| && f in v[l] ==> FileOk(t, f))
    && Ordered(t, v)
  }

  ghost function FilesEntries(t: Tables, files: seq<FileMeta>): set<Entry> {
    set f, e | f in files && e in Run(t, f) :: e
  }

  ghost function LevelsEntries(t: Tables, v: Version): set<Entry> {
    set l, f, e | 0 <= l < |v| && f in v[l] && e in Run(t, f) :: e
  }

  // ------------------------------------------------------------------ looking into one run

  /** Table::InternalGet followed by SaveValue, and MemTable::Get: the first entry at or
      after the seek key, if it has the user key. */
  function RunGet(r: seq<Entry>, k: UserKey, s: SequenceNumber): Option<Entry> {
    var i := LowerBound(r, SeekKey(k, s));
    if i < |r| && r[i].key.user == k then Some(r[i]) else None
  }

  lemma RunGetNewest(r: seq<Entry>, k: UserKey, s: SequenceNumber)
    requires Sorted(r)
    ensures Newest(AllOf(r), k, s, RunGet(r, k, s))
  {
    var i := LowerBound(r, SeekKey(k, s));
    LowerBoundSplits(r, SeekKey(k, s));
    forall j | 0 <= j < |r|
      ensures j < i ==> !VisibleTo(r[j], k, s)
      ensures i < j ==> Less(r[i].key, r[j].key)
      ensures j == i < |r| ==> r[i].key.user > k || VisibleTo(r[i], k, s)
    {
    }
  }

  ghost predicate AboveAll(a: set<Entry>, b: set<Entry>) {
    forall x, y :: x in a && y in b && x.key.user == y.key.user ==> x.key.sequence > y.key.sequence
  }

  /** A newer set that has an answer hides an older one; without an answer it does not matter. */
  lemma NewestOver(a: set<Entry>, b: set<Entry>, k: UserKey, s: nat, r: Option<Entry>, q: Option<Entry>)
    requires Newest(a, k, s, r) && Newest(b, k, s, q) && AboveAll(a, b)
    ensures Newest(a + b, k, s, if r.Some? then r else q)
  {
  }

  // ------------------------------------------------------------------ looking into one level

  /** Level 0: the files that span the user key, newest first. */
  function InsertNewest(f: FileMeta, files: seq<FileMeta>): seq<FileMeta> {
    if files == [] || f.number > files[0].number then [f] + files
    else [files[0]] + InsertNewest(f, files[1..])
  }

  function SortNewestFirst(files: seq<FileMeta>): seq<FileMeta> {
    if files == [] then [] else InsertNewest(files[0], SortNewestFirst(files[1..]))
  }

  ghost predicate NewestFirst(files: seq<FileMeta>) {
    forall i, j :: 0 <= i < j < |files| ==> files[i].number >= files[j].number
  }

  lemma {:induction false} InsertNewestKeeps(f: FileMeta, files: seq<FileMeta>, g: FileMeta)
    ensures g in InsertNewest(f, files) <==> g == f || g in files
  {
    if !(files == [] || f.number > files[0].number) {
      InsertNewestKeeps(f, files[1..], g);
      assert files == [files[0]] + files[1..];
    }
  }

  lemma {:induction false} InsertNewestSorts(f: FileMeta, files: seq<FileMeta>)
    requires NewestFirst(files)
    ensures NewestFirst(InsertNewest(f, files))
  {
    if !(files == [] || f.number > files[0].number) {
      var rest := InsertNewest(f, files[1..]);
      InsertNewestSorts(f, files[1..]);
      forall j | 0 <= j < |rest|
        ensures files[0].number >= rest[j].number
      {
        InsertNewestKeeps(f, files[1..], rest[j]);
      }
    }
  }

  /** Sorting keeps the files and puts the newest first. */
  lemma {:induction false} SortNewestFirstOk(files: seq<FileMeta>)
    ensures NewestFirst(SortNewestFirst(files))
    ensures forall g :: g in SortNewestFirst(files) <==> g in files
  {
    if files != [] {
      SortNewestFirstOk(files[1..]);
      InsertNewestSorts(files[0], SortNewestFirst(files[1..]));
      forall g
        ensures g in SortNewestFirst(files) <==> g in files
      {
        InsertNewestKeeps(files[0], SortNewestFirst(files[1..]), g);
        assert files == [files[0]] + files[1..];
      }
    }
  }

  /** What the first file with an answer says, trying the files in order. */
  function FirstHit(t: Tables, files: seq<FileMeta>, k: UserKey, s: SequenceNumber): Option<Entry> {
    if files == [] then None else
    var r := RunGet(Run(t, files[0]), k, s);
    if r.Some? then r else FirstHit(t, files[1..], k, s)
  }

  lemma EntryWithin(t: Tables, f: FileMeta, e: Entry)
    requires FileOk(t, f) && e in Run(t, f)
    ensures !Less(e.key, f.smallest) && !Less(f.largest, e.key)
  {
    var r := Run(t, f);
    var i :| 0 <= i < |r| && r[i] == e;
    SortedIndex(r, i, 0);
    SortedIndex(r, |r| - 1, i);
  }

  /** Files read newest first, each above the later ones: the first answer is the newest. */
  lemma {:induction false} FirstHitNewest(t: Tables, files: seq<FileMeta>, k: UserKey, s: SequenceNumber)
    requires forall f :: f in files ==> FileOk(t, f)
    requires forall i, j :: 0 <= i < j < |files| ==> Above(Run(t, files[i]), Run(t, files[j]))
    ensures Newest(FilesEntries(t, files), k, s, FirstHit(t, files, k, s))
  {
    if files != [] {
      hide Newest, AboveAll, Above, FilesEntries;
      var rest := files[1..];
      FirstHitNewest(t, rest, k, s);
      assert FileOk(t, files[0]);
      RunGetNewest(Run(t, files[0]), k, s);
      FirstAboveRest(t, files);
      NewestOver(AllOf(Run(t, files[0])), FilesEntries(t, rest), k, s,
                 RunGet(Run(t, files[0]), k, s), FirstHit(t, rest, k, s));
    }
  }

  lemma FirstAboveRest(t: Tables, files: seq<FileMeta>)
    requires files != []
    requires forall i, j :: 0 <= i < j < |files| ==> Above(Run(t, files[i]), Run(t, files[j]))
    ensures FilesEntries(t, files) == AllOf(Run(t, files[0])) + FilesEntries(t, files[1..])
    ensures AboveAll(AllOf(Run(t, files[0])), FilesEntries(t, files[1..]))
  {
    forall x, y | x in AllOf(Run(t, files[0])) && y in FilesEntries(t, files[1..]) && x.key.user == y.key.user
      ensures x.key.sequence > y.key.sequence
    {
      var f :| f in files[1..] && y in Run(t, f);
      var j :| 1 <= j < |files| && files[j] == f;
      assert Above(Run(t, files[0]), Run(t, files[j]));
    }
  }

  /** A level-0 read tries the files that span the user key, newest first. */
  lemma Level0Candidates(t: Tables, files: seq<FileMeta>, k: UserKey, s: SequenceNumber)
    requires forall f :: f in files ==> FileOk(t, f)
    requires SortedFiles(files)
    requires forall f, g :: f in files && g in files && f.number == g.number ==> f == g
    requires forall f, g :: f in files && g in files && f.number > g.number ==> Above(Run(t, f), Run(t, g))
    ensures var c := SortNewestFirst(Overlapping(files, Some(k), Some(k)));
            Newest(FilesEntries(t, files), k, s, FirstHit(t, c, k, s))
  {
    hide FileOk, Above, Newest, FilesEntries, Overlaps, FirstHit, Overlapping, SortNewestFirst;
    var c := SortNewestFirst(Overlapping(files, Some(k), Some(k)));
    CandidatesInOrder(files, k);
    FirstHitNewest(t, c, k, s);
    SpanningSuffice(t, files, c, k, s, FirstHit(t, c, k, s));
  }

  /** Only files that span the user key can have a visible entry. */
  lemma SpanningSuffice(t: Tables, files: seq<FileMeta>, c: seq<FileMeta>, k: UserKey, s: SequenceNumber, r: Option<Entry>)
    requires forall f :: f in files ==> FileOk(t, f)
    requires forall f :: f in c <==> f in files && Overlaps(f, Some(k), Some(k))
    requires Newest(FilesEntries(t, c), k, s, r)
    ensures Newest(FilesEntries(t, files), k, s, r)
  {
    forall e | e in FilesEntries(t, files) && VisibleTo(e, k, s)
      ensures e in FilesEntries(t, c)
    {
      var f :| f in files && e in Run(t, f);
      EntryWithin(t, f, e);
    }
    assert forall e :: e in FilesEntries(t, c) ==> e in FilesEntries(t, files);
  }

  lemma CandidatesInOrder(files: seq<FileMeta>, k: UserKey)
    requires SortedFiles(files)
    requires forall f, g :: f in files && g in files && f.number == g.number ==> f == g
    ensures var c := SortNewestFirst(Overlapping(files, Some(k), Some(k)));
            && (forall f :: f in c <==> f in files && Overlaps(f, Some(k), Some(k)))
            && (forall i, j :: 0 <= i < j < |c| ==> c[i].number > c[j].number)
  {
    var spanning := Overlapping(files, Some(k), Some(k));
    SortNewestFirstOk(spanning);
    OverlappingDistinct(files, Some(k), Some(k));
    SortDistinct(spanning);
    forall f
      ensures f in spanning <==> f in files && Overlaps(f, Some(k), Some(k))
    {
      OverlappingIff(files, Some(k), Some(k), f);
    }
  }

  ghost predicate NoRepeats(files: seq<FileMeta>) {
    forall i, j :: 0 <= i < j < |files| ==> files[i] != files[j]
  }

  lemma {:induction false} OverlappingDistinct(files: seq<FileMeta>, lo: Bound, hi: Bound)
    requires SortedFiles(files)
    ensures NoRepeats(Overlapping(files, lo, hi))
  {
    if files != [] {
      var n := |files| - 1;
      OverlappingDistinct(files[..n], lo, hi);
      OverlappingIff(files[..n], lo, hi, files[n]);
    }
  }

  lemma {:induction false} SortDistinct(files: seq<FileMeta>)
    requires NoRepeats(files)
    ensures NoRepeats(SortNewestFirst(files))
  {
    if files != [] {
      SortDistinct(files[1..]);
      SortNewestFirstOk(files[1..]);
      InsertDistinct(files[0], SortNewestFirst(files[1..]));
    }
  }

  lemma {:induction false} InsertDistinct(f: FileMeta, files: seq<FileMeta>)
    requires NoRepeats(files) && f !in files
    ensures NoRepeats(InsertNewest(f, files))
  {
    if !(files == [] || f.number > files[0].number) {
      InsertDistinct(f, files[1..]);
      InsertNewestKeeps(f, files[1..], files[0]);
    }
  }

  /** What the file found by binary search answers, if it reaches down to the user key. */
  function CandidateGet(t: Tables, files: seq<FileMeta>, k: UserKey, s: SequenceNumber, p: nat): Option<Entry> {
    if p >= |files| || k < files[p].smallest.user then None else RunGet(Run(t, files[p]), k, s)
  }

  /** No visible entry of the level is newer than the candidate's answer. */
  lemma CandidateCovers(t: Tables, files: seq<FileMeta>, k: UserKey, s: SequenceNumber, p: nat, i: nat, e: Entry)
    requires DisjointSorted(files) && p <= |files| && i < |files|
    requires i < p <==> Less(files[i].largest, SeekKey(k, s))
    requires p < |files| ==> FileOk(t, files[p]) && !Less(files[p].largest, SeekKey(k, s))
    requires FileOk(t, files[i]) && e in Run(t, files[i]) && VisibleTo(e, k, s)
    ensures CandidateGet(t, files, k, s, p).Some?
    ensures e.key.sequence <= CandidateGet(t, files, k, s, p).value.key.sequence
  {
    EntryWithin(t, files[i], e);
    CandidateEnds(t, files[p], k, s);
    if p < i {
      assert Less(files[p].largest, files[i].smallest);
    }
  }

  /** On a sorted level only the file found by binary search can answer. */
  lemma LevelCandidate(t: Tables, files: seq<FileMeta>, k: UserKey, s: SequenceNumber, p: nat)
    requires DisjointSorted(files) && (forall f :: f in files ==> FileOk(t, f)) && p <= |files|
    requires forall i :: 0 <= i < |files| ==> (i < p <==> Less(files[i].largest, SeekKey(k, s)))
    ensures Newest(FilesEntries(t, files), k, s, CandidateGet(t, files, k, s, p))
  {
    hide DisjointSorted, FileOk, Less;
    var q := CandidateGet(t, files, k, s, p);
    forall e | e in FilesEntries(t, files) && VisibleTo(e, k, s)
      ensures q.Some? && e.key.sequence <= q.value.key.sequence
    {
      var f :| f in files && e in Run(t, f);
      var i :| 0 <= i < |files| && files[i] == f;
      assert p < |files| ==> files[p] in files;
      CandidateCovers(t, files, k, s, p, i, e);
    }
    if q.Some? {
      assert files[p] in files;
      CandidateEnds(t, files[p], k, s);
      assert q.value in Run(t, files[p]);
    }
  }

  /** What a single file whose largest key is at or after the seek key says about the
      user key, and about every key after the file. */
  lemma CandidateEnds(t: Tables, f: FileMeta, k: UserKey, s: SequenceNumber)
    requires FileOk(t, f) && !Less(f.largest, SeekKey(k, s))
    ensures Newest(AllOf(Run(t, f)), k, s, RunGet(Run(t, f), k, s))
    ensures RunGet(Run(t, f), k, s).None? ==> k < f.largest.user
    ensures RunGet(Run(t, f), k, s).Some? ==> !Less(f.largest, RunGet(Run(t, f), k, s).value.key)
  {
    var r := Run(t, f);
    RunGetNewest(r, k, s);
    LowerBoundSplits(r, SeekKey(k, s));
    var i := LowerBound(r, SeekKey(k, s));
    assert !Less(r[|r| - 1].key, SeekKey(k, s));
    SortedIndex(r, |r| - 1, i);
  }

  /** The first file of a level whose largest key is at or after `key`. */
  function FirstReaching(files: seq<FileMeta>, key: InternalKey): nat {
    if files == [] || !Less(files[0].largest, key) then 0 else 1 + FirstReaching(files[1..], key)
  }

  /** The files of a level that may hold the user key of `key`, in the order they are tried. */
  function LevelCandidates(level: nat, files: seq<FileMeta>, key: InternalKey): seq<FileMeta> {
    if level == 0 then SortNewestFirst(Overlapping(files, Some(key.user), Some(key.user))) else
    var p := FirstReaching(files, key);
    if p < |files| && key.user >= files[p].smallest.user then [files[p]] else []
  }

  lemma {:induction false} FirstReachingIs(files: seq<FileMeta>, key: InternalKey, p: nat)
    requires p <= |files|
    requires forall i :: 0 <= i < |files| ==> (i < p <==> Less(files[i].largest, key))
    ensures FirstReaching(files, key) == p
  {
    if p > 0 {
      FirstReachingIs(files[1..], key, p - 1);
    }
  }

  lemma CandidatesInLevel(level: nat, files: seq<FileMeta>, key: InternalKey)
    ensures forall f :: f in LevelCandidates(level, files, key) ==> f in files
    ensures level > 0 ==> |LevelCandidates(level, files, key)| <= 1
  {
    SortNewestFirstOk(Overlapping(files, Some(key.user), Some(key.user)));
    forall f | f in LevelCandidates(level, files, key)
      ensures f in files
    {
      OverlappingIff(files, Some(key.user), Some(key.user), f);
    }
  }

  /** One level of Version::ForEachOverlapping: level 0 from the newest file to the oldest,
      a sorted level by binary search. */
  method CandidateFiles(level: nat, files: seq<FileMeta>, key: InternalKey) returns (c: seq<FileMeta>)
    requires level > 0 ==> DisjointSorted(files)
    ensures c == LevelCandidates(level, files, key)
  {
    if level == 0 {
      var tmp: seq<FileMeta> := [];
      for i := 0 to |files|
        invariant tmp == Overlapping(files[..i], Some(key.user), Some(key.user))
      {
        assert files[..i + 1][..i] == files[..i];
        var f := files[i];
        if key.user >= f.smallest.user && key.user <= f.largest.user {
          tmp := tmp + [f];
        }
      }
      assert files[..|files|] == files;
      c := SortNewestFirst(tmp);
    } else {
      var index := FindFile(files, key);
      FirstReachingIs(files, key, index);
      if index >= |files| {
        c := [];
      } else if key.user < files[index].smallest.user {
        c := [];
      } else {
        c := [files[index]];
      }
    }
  }

  /** The first candidate of a level with an answer has the newest visible entry of the level. */
  lemma CandidatesAnswer(t: Tables, level: nat, files: seq<FileMeta>, k: UserKey, s: SequenceNumber)
    requires forall f :: f in files ==> FileOk(t, f)
    requires level > 0 ==> DisjointSorted(files)
    requires level == 0 ==>
               && SortedFiles(files)
               && (forall f, g :: f in files && g in files && f.number == g.number ==> f == g)
               && (forall f, g :: f in files && g in files && f.number > g.number ==> Above(Run(t, f), Run(t, g)))
    ensures Newest(FilesEntries(t, files), k, s, FirstHit(t, LevelCandidates(level, files, SeekKey(k, s)), k, s))
  {
    if level == 0 {
      Level0Candidates(t, files, k, s);
    } else {
      SortedCandidate(t, level, files, k, s);
    }
  }

  lemma SortedCandidate(t: Tables, level: nat, files: seq<FileMeta>, k: UserKey, s: SequenceNumber)
    requires level > 0 && DisjointSorted(files) && forall f :: f in files ==> FileOk(t, f)
    ensures Newest(FilesEntries(t, files), k, s, FirstHit(t, LevelCandidates(level, files, SeekKey(k, s)), k, s))
  {
    hide Newest, FilesEntries, FileOk;
    var key := SeekKey(k, s);
    var p := FirstReaching(files, key);
    ReachingSplits(files, key);
    LevelCandidate(t, files, k, s, p);
    var c := LevelCandidates(level, files, key);
    if c != [] {
      assert FirstHit(t, c[1..], k, s) == None;
    }
  }

  lemma {:induction false} ReachingSplits(files: seq<FileMeta>, key: InternalKey)
    requires DisjointSorted(files)
    ensures var p := FirstReaching(files, key);
            p <= |files| && forall i :: 0 <= i < |files| ==> (i < p <==> Less(files[i].largest, key))
  {
    if files != [] {
      assert forall i :: 1 <= i < |files| ==> files[i] in files && Less(files[0].largest, files[i].smallest);
      ReachingSplits(files[1..], key);
    }
  }

  // ------------------------------------------------------------------ the files on the way of a read

  function At(level: nat, files: seq<FileMeta>): seq<SeekFile> {
    seq(|files|, i requires 0 <= i < |files| => SeekFile(level, files[i]))
  }

  /** All the files a read of `key` may have to look into, level by level. */
  function Candidates(v: Version, key: InternalKey): seq<SeekFile> {
    if v == [] then [] else
    var n := |v| - 1;
    Candidates(v[..n], key) + At(n, LevelCandidates(n, v[n], key))
  }

  lemma {:induction false} CandidatesPrefix(v: Version, l: nat, key: InternalKey)
    requires l < |v|
    ensures Candidates(v[..l + 1], key) == Candidates(v[..l], key) + At(l, LevelCandidates(l, v[l], key))
    ensures Candidates(v[..l + 1], key) <= Candidates(v, key)
    decreases |v|
  {
    hide LevelCandidates, At;
    assert v[..l + 1][..l] == v[..l];
    var n := |v| - 1;
    if l < n {
      CandidatesPrefix(v[..n], l, key);
      assert v[..n][..l + 1] == v[..l + 1];
    } else {
      assert v[..l + 1] == v;
    }
  }

  /** The file to charge when a read of `key` has more than one file on its way: the first. */
  function ChargeFor(v: Version, key: InternalKey): Option<SeekFile> {
    if |Candidates(v, key)| > 1 then Some(Candidates(v, key)[0]) else None
  }

  // ------------------------------------------------------------------ Version::Get

  lemma LevelsSplit(t: Tables, v: Version, l: nat)
    requires l < |v|
    ensures LevelsEntries(t, v[..l + 1]) == LevelsEntries(t, v[..l]) + FilesEntries(t, v[l])
  {
    var a, b := LevelsEntries(t, v[..l + 1]), LevelsEntries(t, v[..l]) + FilesEntries(t, v[l]);
    forall e | e in a
      ensures e in b
    {
      var m, f :| 0 <= m < l + 1 && f in v[..l + 1][m] && e in Run(t, f);
      assert m < l ==> f in v[..l][m];
    }
    forall e | e in b
      ensures e in a
    {
      if e in LevelsEntries(t, v[..l]) {
        var m, f :| 0 <= m < l && f in v[..l][m] && e in Run(t, f);
        assert f in v[..l + 1][m];
      } else {
        var f :| f in v[l] && e in Run(t, f);
        assert f in v[..l + 1][l];
      }
    }
  }

  lemma InPrefix(t: Tables, v: Version, l: nat, m: nat, f: FileMeta, x: Entry)
    requires m < l <= |v| && f in v[m] && x in Run(t, f)
    ensures x in LevelsEntries(t, v[..l])
  {
    assert f in v[..l][m];
  }

  /** The newest entry of a level is the newest of the version when the levels above have none. */
  lemma HitIsNewest(t: Tables, v: Version, l: nat, k: UserKey, s: nat, e: Entry)
    requires Ordered(t, v) && l < |v|
    requires Newest(LevelsEntries(t, v[..l]), k, s, None) && Newest(FilesEntries(t, v[l]), k, s, Some(e))
    ensures Newest(LevelsEntries(t, v), k, s, Some(e))
  {
    var g :| g in v[l] && e in Run(t, g);
    forall x | x in LevelsEntries(t, v) && VisibleTo(x, k, s)
      ensures x.key.sequence <= e.key.sequence
    {
      var m, f :| 0 <= m < |v| && f in v[m] && x in Run(t, f);
      if m < l {
        InPrefix(t, v, l, m, f, x);
      } else if m == l {
        assert x in FilesEntries(t, v[l]);
      } else {
        assert Above(Run(t, g), Run(t, f));
      }
    }
    assert e in LevelsEntries(t, v);
  }

  /** The files a read is charged with: the last one read, and the first one once there are two. */
  datatype Charge = Charge(lastRead: Option<SeekFile>, seekFile: Option<SeekFile>)

  /** The charge follows from the trail of files read; none of them lies on `level` or below. */
  ghost predicate ChargeOk(v: Version, c: Charge, trail: seq<SeekFile>, level: nat) {
    && c.seekFile == (if |trail| > 1 then Some(trail[0]) else None)
    && c.lastRead == (if trail == [] then None else Some(trail[|trail| - 1]))
    && (c.lastRead.Some? ==> c.lastRead.value.level < level <= NUM_LEVELS == |v| &&
                             c.lastRead.value.file in v[c.lastRead.value.level])
    && SeekFileOk(v, c.seekFile)
  }

  /** No file of the trail has an answer. */
  ghost predicate Missed(t: Tables, trail: seq<SeekFile>, k: UserKey, s: SequenceNumber) {
    forall i :: 0 <= i < |trail| ==> RunGet(Run(t, trail[i].file), k, s) == None
  }

  /** The last file of the trail, and no other, answers; or none does. */
  ghost predicate Answered(t: Tables, trail: seq<SeekFile>, k: UserKey, s: SequenceNumber, e: Option<Entry>) {
    if e.None? then Missed(t, trail, k, s)
    else trail != [] && Missed(t, trail[..|trail| - 1], k, s) && RunGet(Run(t, trail[|trail| - 1].file), k, s) == e
  }

  /** How many of the files a read looks into, in order, until one answers. */
  function FilesRead(t: Tables, files: seq<SeekFile>, k: UserKey, s: SequenceNumber): nat {
    if files == [] then 0 else
    if RunGet(Run(t, files[0].file), k, s).Some? then 1 else 1 + FilesRead(t, files[1..], k, s)
  }

  /** The file that Version::Get charges: the first of several files read. */
  function ChargedByGet(t: Tables, v: Version, k: UserKey, s: SequenceNumber): Option<SeekFile> {
    var files := Candidates(v, SeekKey(k, s));
    if FilesRead(t, files, k, s) > 1 && files != [] then Some(files[0]) else None
  }

  lemma {:induction false} AnsweredIsRead(t: Tables, files: seq<SeekFile>, trail: seq<SeekFile>, k: UserKey, s: SequenceNumber, e: Option<Entry>)
    requires trail <= files && Answered(t, trail, k, s, e) && (e.None? ==> trail == files)
    ensures FilesRead(t, files, k, s) == |trail|
    decreases |trail|
  {
    hide RunGet, Run, Answered;
    AnsweredOnce(t, trail, k, s, e);
    if |trail| > 1 {
      AnsweredIsRead(t, files[1..], trail[1..], k, s, e);
    } else if |trail| == 1 && e.None? {
      AnsweredIsRead(t, files[1..], [], k, s, e);
    }
  }

  /** Only the last file of a trail can answer, and the rest of the trail is like it. */
  lemma AnsweredOnce(t: Tables, trail: seq<SeekFile>, k: UserKey, s: SequenceNumber, e: Option<Entry>)
    requires Answered(t, trail, k, s, e)
    ensures |trail| > 1 ==> RunGet(Run(t, trail[0].file), k, s) == None && Answered(t, trail[1..], k, s, e)
    ensures |trail| == 1 ==> RunGet(Run(t, trail[0].file), k, s) == e
    ensures trail == [] ==> e.None?
    ensures e.None? ==> Answered(t, [], k, s, e)
  {
    hide RunGet, Run;
    if |trail| > 1 {
      var n := |trail| - 1;
      assert forall i :: 0 <= i < n ==> trail[1..][i] == trail[i + 1];
      assert trail[1..][..n - 1] == trail[..n][1..];
      assert forall i :: 0 <= i < n ==> trail[..n][i] == trail[i];
    }
  }

  lemma MissedMore(t: Tables, trail: seq<SeekFile>, x: SeekFile, k: UserKey, s: SequenceNumber)
    requires Missed(t, trail, k, s)
    ensures Answered(t, trail + [x], k, s, RunGet(Run(t, x.file), k, s))
  {
    hide RunGet, Run;
    assert (trail + [x])[..|trail|] == trail;
  }

  /** Reading one more file keeps the charge in step with the trail. */
  lemma ReadCharged(v: Version, c: Charge, trail: seq<SeekFile>, level: nat, f: FileMeta)
    requires level < NUM_LEVELS == |v| && ChargeOk(v, c, trail, level + 1) && f in v[level]
    requires c.lastRead.Some? && c.lastRead.value.level == level ==> level == 0
    ensures ChargeOk(v, Charge(Some(SeekFile(level, f)), if c.seekFile.None? then c.lastRead else c.seekFile),
                     trail + [SeekFile(level, f)], level + 1)
  {
  }

  /** Tries the candidate files of one level in order until one of them answers. */
  method TryFiles(t: Tables, ghost v: Version, level: nat, files: seq<FileMeta>, k: UserKey, s: SequenceNumber,
                  c: Charge, ghost trail: seq<SeekFile>)
    returns (e: Option<Entry>, c': Charge, ghost trail': seq<SeekFile>)
    requires level < NUM_LEVELS == |v| && ChargeOk(v, c, trail, level)
    requires (forall f :: f in files ==> f in v[level]) && (level > 0 ==> |files| <= 1) && Missed(t, trail, k, s)
    ensures e == FirstHit(t, files, k, s) && Answered(t, trail', k, s, e)
    ensures ChargeOk(v, c', trail', level + 1)
    ensures trail' <= trail + At(level, files) && (e.None? ==> trail' == trail + At(level, files))
  {
    hide ChargeOk, RunGet, Run, Missed;
    c', trail' := c, trail;
    assert files[0..] == files;
    ChargeOnward(v, c, trail, level);
    for i := 0 to |files|
      invariant FirstHit(t, files, k, s) == FirstHit(t, files[i..], k, s)
      invariant ChargeOk(v, c', trail', level + 1)
      invariant c'.lastRead.Some? && c'.lastRead.value.level == level ==> level == 0 || i == 1
      invariant trail' == trail + At(level, files)[..i] && Missed(t, trail', k, s)
    {
      assert files[i] in files;
      MissedMore(t, trail', SeekFile(level, files[i]), k, s);
      ReadCharged(v, c', trail', level, files[i]);
      if c'.lastRead.Some? && c'.seekFile.None? {
        // more than one file read: charge the first one
        c' := c'.(seekFile := c'.lastRead);
      }
      c' := c'.(lastRead := Some(SeekFile(level, files[i])));
      trail' := trail' + [At(level, files)[i]];
      e := RunGet(Run(t, files[i]), k, s);
      if e.Some? {
        return;
      }
      assert files[i..][1..] == files[i + 1..];
    }
    e := None;
  }

  lemma ChargeOnward(v: Version, c: Charge, trail: seq<SeekFile>, level: nat)
    requires level < NUM_LEVELS && ChargeOk(v, c, trail, level)
    ensures ChargeOk(v, c, trail, level + 1)
    ensures c.lastRead.Some? ==> c.lastRead.value.level < level
  {
  }

  lemma NothingRead(t: Tables, v: Version, k: UserKey, s: SequenceNumber)
    requires |v| == NUM_LEVELS
    ensures ChargeOk(v, Charge(None, None), [], 0) && Missed(t, [], k, s)
  {
  }

  lemma NoneAnswered(t: Tables, trail: seq<SeekFile>, k: UserKey, s: SequenceNumber)
    ensures Answered(t, trail, k, s, None) <==> Missed(t, trail, k, s)
  {
  }

  lemma ChargeIsThat(t: Tables, v: Version, c: Charge, trail: seq<SeekFile>, level: nat, k: UserKey, s: SequenceNumber, e: Option<Entry>)
    requires ChargeOk(v, c, trail, level) && trail <= Candidates(v, SeekKey(k, s)) && Answered(t, trail, k, s, e)
    requires e.None? ==> trail == Candidates(v, SeekKey(k, s))
    ensures c.seekFile == ChargedByGet(t, v, k, s) && SeekFileOk(v, c.seekFile)
    ensures c.seekFile.Some? ==> c.seekFile == ChargeFor(v, SeekKey(k, s))
  {
    hide FilesRead, Answered, Candidates;
    AnsweredIsRead(t, Candidates(v, SeekKey(k, s)), trail, k, s, e);
  }

  /** Version::Get tries level by level and stops at the first answer.  It finds the
      newest visible entry of the whole version.  A file is charged exactly when more
      than one was read: the first of the candidates, which sampling the same key would
      charge, too, and which is never on the last level. */
  method VersionGet(t: Tables, v: Version, k: UserKey, s: SequenceNumber)
    returns (e: Option<Entry>, seekFile: Option<SeekFile>)
    requires VersionOk(t, v)
    ensures Newest(LevelsEntries(t, v), k, s, e)
    ensures seekFile == ChargedByGet(t, v, k, s)
    ensures seekFile.Some? ==> seekFile == ChargeFor(v, SeekKey(k, s))
    ensures SeekFileOk(v, seekFile)
  {
    hide Newest, LevelsEntries, FilesEntries, DisjointSorted, SortedFiles, LevelCandidates, At, FirstHit, FileOk, Above,
      RunGet, Run, ChargeOk, Missed, Answered, FilesRead, ChargedByGet, SeekFileOk;
    var charge := Charge(None, None);
    ghost var trail: seq<SeekFile> := [];
    NothingAbove(t, v, k, s);
    NothingRead(t, v, k, s);
    for level := 0 to NUM_LEVELS
      invariant Newest(LevelsEntries(t, v[..level]), k, s, None)
      invariant ChargeOk(v, charge, trail, level)
      invariant trail == Candidates(v[..level], SeekKey(k, s)) && Missed(t, trail, k, s)
    {
      var files := CandidateFiles(level, v[level], SeekKey(k, s));
      CandidatesAnswer(t, level, v[level], k, s);
      CandidatesInLevel(level, v[level], SeekKey(k, s));
      CandidatesPrefix(v, level, SeekKey(k, s));
      e, charge, trail := TryFiles(t, v, level, files, k, s, charge, trail);
      if e.Some? {
        HitIsNewest(t, v, level, k, s, e.value);
        ChargeIsThat(t, v, charge, trail, level + 1, k, s, e);
        return e, charge.seekFile;
      }
      NoneAnswered(t, trail, k, s);
      MissGoesOn(t, v, level, k, s);
    }
    assert v[..NUM_LEVELS] == v;
    NoneAnswered(t, trail, k, s);
    ChargeIsThat(t, v, charge, trail, NUM_LEVELS, k, s, None);
    return None, charge.seekFile;
  }

  function First(trail: seq<SeekFile>): Option<SeekFile> {
    if trail == [] then None else Some(trail[0])
  }

  /** Passes the candidate files of one level to State::Match, which remembers the first
      match and stops at the second. */
  method MatchFiles(level: nat, files: seq<FileMeta>, first: Option<SeekFile>, ghost trail: seq<SeekFile>)
    returns (first': Option<SeekFile>, two: bool)
    requires |trail| <= 1 && first == First(trail)
    ensures first' == First(trail + At(level, files))
    ensures two <==> |trail + At(level, files)| > 1
  {
    first', two := first, false;
    for i := 0 to |files|
      invariant |trail| + i <= 1 && !two
      invariant first' == if i == 0 then First(trail) else Some(SeekFile(level, files[0]))
    {
      if first'.Some? {
        two := true;
        return;
      }
      first' := Some(SeekFile(level, files[i]));
    }
  }

  /** Version::RecordReadSample: counts the files a read of the key may look into, up to
      the second one, and charges the first one if there is a second. */
  method RecordReadSample(v: Version, key: InternalKey) returns (charged: Option<SeekFile>)
    requires LevelsOk(v)
    ensures charged == ChargeFor(v, key)
  {
    hide DisjointSorted, LevelCandidates, At, AllInOrder;
    var first: Option<SeekFile> := None;
    for level := 0 to NUM_LEVELS
      invariant first == First(Candidates(v[..level], key))
      invariant |Candidates(v[..level], key)| <= 1
    {
      var files := CandidateFiles(level, v[level], key);
      CandidatesPrefix(v, level, key);
      var two;
      first, two := MatchFiles(level, files, first, Candidates(v[..level], key));
      if two {
        return first;
      }
    }
    assert v[..NUM_LEVELS] == v;
    return None;
  }

  /** The charged file is a file of the version, and not one of the last level. */
  lemma ChargeForOk(v: Version, key: InternalKey)
    requires |v| == NUM_LEVELS
    ensures SeekFileOk(v, ChargeFor(v, key))
  {
    hide LevelCandidates;
    var n := NUM_LEVELS - 1;
    var c, c' := Candidates(v, key), Candidates(v[..n], key);
    assert v[..n + 1] == v;
    CandidatesPrefix(v, n, key);
    CandidatesInLevel(n, v[n], key);
    if |c| > 1 {
      assert c[0] == c'[0];
      CandidatesInVersion(v[..n], key);
    }
  }

  lemma {:induction false} CandidatesInVersion(v: Version, key: InternalKey)
    ensures forall i :: 0 <= i < |Candidates(v, key)| ==>
              Candidates(v, key)[i].level < |v| && Candidates(v, key)[i].file in v[Candidates(v, key)[i].level]
  {
    hide LevelCandidates;
    if v != [] {
      var n := |v| - 1;
      CandidatesInVersion(v[..n], key);
      CandidatesInLevel(n, v[n], key);
    }
  }

  lemma NothingAbove(t: Tables, v: Version, k: UserKey, s: nat)
    ensures Newest(LevelsEntries(t, v[..0]), k, s, None)
  {
  }

  lemma MissGoesOn(t: Tables, v: Version, l: nat, k: UserKey, s: nat)
    requires l < |v|
    requires Newest(LevelsEntries(t, v[..l]), k, s, None) && Newest(FilesEntries(t, v[l]), k, s, None)
    ensures Newest(LevelsEntries(t, v[..l + 1]), k, s, None)
  {
    LevelsSplit(t, v, l);
  }
}
