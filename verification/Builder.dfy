/** Version edits and the builder that applies a sequence of them to a version. */
module Builders {
  import opened Files
  import opened Compactions
  import opened Lsm

  /** What an edit does to the files of a version; `deletedFiles` holds (level, number) pairs. */
  datatype FileEdit = FileEdit(deletedFiles: set<(nat, nat)>, newFiles: seq<(nat, FileMeta)>)

  ghost predicate EditOk(edit: FileEdit) {
    && (forall p :: p in edit.deletedFiles ==> p.0 < NUM_LEVELS)
    && (forall p :: p in edit.newFiles ==> p.0 < NUM_LEVELS)
  }

  // ------------------------------------------------------------------ sorted sets of files

  lemma BySmallestTotal(f: FileMeta, g: FileMeta)
    ensures BySmallest(f, g) || BySmallest(g, f) || (f.smallest == g.smallest && f.number == g.number)
    ensures !(BySmallest(f, g) && BySmallest(g, f))
  {
  }

  lemma BySmallestTransitive(f: FileMeta, g: FileMeta, h: FileMeta)
    requires BySmallest(f, g) && BySmallest(g, h)
    ensures BySmallest(f, h)
  {
  }

  /** Two files the order of a level cannot tell apart. */
  predicate SamePlace(f: FileMeta, g: FileMeta) {
    f.smallest == g.smallest && f.number == g.number
  }

  /** Insertion into a std::set ordered by BySmallest: an element in the same place stays. */
  function InsertFile(files: seq<FileMeta>, f: FileMeta): seq<FileMeta> {
    if files == [] then [f]
    else if BySmallest(f, files[0]) then [f] + files
    else if BySmallest(files[0], f) then [files[0]] + InsertFile(files[1..], f)
    else files
  }

  lemma {:induction false} InsertFileOk(files: seq<FileMeta>, f: FileMeta)
    requires SortedFiles(files)
    ensures SortedFiles(InsertFile(files, f))
    ensures forall g :: g in InsertFile(files, f) ==> g in files || g == f
    ensures forall g :: g in files ==> g in InsertFile(files, f)
    ensures (forall g :: g in files && SamePlace(f, g) ==> f == g) ==> f in InsertFile(files, f)
  {
    if files != [] {
      BySmallestTotal(f, files[0]);
      if BySmallest(f, files[0]) {
        forall j | 0 <= j < |files|
          ensures BySmallest(f, files[j])
        {
          if 0 < j {
            BySmallestTransitive(f, files[0], files[j]);
          }
        }
      } else if BySmallest(files[0], f) {
        InsertFileOk(files[1..], f);
        assert files == [files[0]] + files[1..];
        forall g | g in InsertFile(files[1..], f)
          ensures BySmallest(files[0], g)
        {
          if g != f {
            var j :| 1 <= j < |files| && files[j] == g;
          }
        }
      } else {
        assert SamePlace(f, files[0]);
      }
    }
  }

  // ------------------------------------------------------------------ the builder

  datatype LevelState = LevelState(deleted: set<nat>, added: seq<FileMeta>)

  /** Applying one edit to the state of one level. */
  function ApplyToLevel(s: LevelState, level: nat, edit: FileEdit): LevelState {
    AddFiles(LevelState(s.deleted + set p | p in edit.deletedFiles && p.0 == level :: p.1, s.added), level, edit.newFiles)
  }

  function AddFiles(s: LevelState, level: nat, files: seq<(nat, FileMeta)>): LevelState {
    if files == [] then s else
    var s', p := AddFiles(s, level, files[..|files| - 1]), files[|files| - 1];
    if p.0 == level then LevelState(s'.deleted - {p.1.number}, InsertFile(s'.added, p.1)) else s'
  }

  /** `files` is the level after the builder's changes, in order. */
  ghost predicate SavedLevel(files: seq<FileMeta>, base: seq<FileMeta>, s: LevelState) {
    && SortedFiles(files)
    && forall f :: f in files <==> (f in base || f in s.added) && f.number !in s.deleted
  }

  /** A sorted list of files is determined by its members. */
  lemma {:induction false} SortedFilesUnique(a: seq<FileMeta>, b: seq<FileMeta>)
    requires SortedFiles(a) && SortedFiles(b)
    requires forall f :: f in a <==> f in b
    ensures a == b
  {
    assert 0 < |b| ==> b[0] in b;
    assert 0 < |a| ==> a[0] in a;
    if a != [] {
      assert a[0] in b;
      assert b[0] in a;
      assert a[0] == b[0] by {
        var i :| 0 <= i < |b| && b[i] == a[0];
        var j :| 0 <= j < |a| && a[j] == b[0];
        BySmallestTotal(a[0], b[0]);
      }
      forall f
        ensures f in a[1..] <==> f in b[1..]
      {
        if f in a[1..] {
          var i :| 1 <= i < |a| && a[i] == f;
          assert f in b && BySmallest(a[0], f);
          var j :| 0 <= j < |b| && b[j] == f;
          BySmallestTotal(b[0], f);
        }
        if f in b[1..] {
          var i :| 1 <= i < |b| && b[i] == f;
          assert f in a && BySmallest(b[0], f);
          var j :| 0 <= j < |a| && a[j] == f;
          BySmallestTotal(a[0], f);
        }
      }
      SortedFilesUnique(a[1..], b[1..]);
    }
  }

  class Builder {
    const base: Version
    var levels: seq<LevelState>

    ghost predicate Ok()
      reads this
    {
      && |base| == |levels| == NUM_LEVELS
      && forall l :: 0 <= l < NUM_LEVELS ==> SortedFiles(levels[l].added)
    }

    constructor (base: Version)
      requires |base| == NUM_LEVELS
      ensures Ok() && this.base == base
      ensures forall l :: 0 <= l < NUM_LEVELS ==> levels[l] == LevelState({}, [])
    {
      this.base := base;
      levels := seq(NUM_LEVELS, _ => LevelState({}, []));
    }

    /** Records an edit: first its deletions, then its new files. */
    method Apply(edit: FileEdit)
      requires Ok() && EditOk(edit)
      modifies this
      ensures Ok()
      ensures forall l :: 0 <= l < NUM_LEVELS ==> levels[l] == ApplyToLevel(old(levels[l]), l, edit)
    {
      ghost var before := levels;
      var start := levels;
      start := seq(NUM_LEVELS, l requires 0 <= l < |start| =>
        LevelState(start[l].deleted + set p | p in edit.deletedFiles && p.0 == l :: p.1, start[l].added));
      levels := start;
      for i := 0 to |edit.newFiles|
        invariant Ok()
        invariant forall l :: 0 <= l < NUM_LEVELS ==> levels[l] == AddFiles(start[l], l, edit.newFiles[..i])
      {
        var level, f := edit.newFiles[i].0, edit.newFiles[i].1;
        assert edit.newFiles[i] in edit.newFiles;
        assert edit.newFiles[..i + 1][..i] == edit.newFiles[..i];
        InsertFileOk(levels[level].added, f);
        levels := levels[level := LevelState(levels[level].deleted - {f.number}, InsertFile(levels[level].added, f))];
      }
      assert edit.newFiles[..|edit.newFiles|] == edit.newFiles;
    }

    /** Merges the base files of one level with the added ones and leaves out the deleted ones. */
    method SaveLevel(level: nat) returns (files: seq<FileMeta>)
      requires Ok() && level < NUM_LEVELS && SortedFiles(base[level])
      requires forall f, g :: f in base[level] && g in levels[level].added ==> !SamePlace(f, g)
      ensures SavedLevel(files, base[level], levels[level])
    {
      files := MergeLevel(base[level], levels[level].added, levels[level].deleted);
    }

    /** The new version. */
    method SaveTo() returns (v: Version)
      requires Ok()
      requires forall l :: 0 <= l < NUM_LEVELS ==> SortedFiles(base[l])
      requires forall l, f, g :: 0 <= l < NUM_LEVELS && f in base[l] && g in levels[l].added ==> !SamePlace(f, g)
      ensures |v| == NUM_LEVELS
      ensures forall l :: 0 <= l < NUM_LEVELS ==> SavedLevel(v[l], base[l], levels[l])
    {
      v := [];
      for l := 0 to NUM_LEVELS
        invariant |v| == l
        invariant forall m :: 0 <= m < l ==> SavedLevel(v[m], base[m], levels[m])
      {
        var files := SaveLevel(l);
        v := v + [files];
      }
    }
  }

  /** The merge has consumed the first b base files and the first a added ones. */
  ghost predicate Merged(files: seq<FileMeta>, base: seq<FileMeta>, b: nat, added: seq<FileMeta>, a: nat, deleted: set<nat>)
  {
    && b <= |base| && a <= |added| && SortedFiles(files) && SortedFiles(base) && SortedFiles(added)
    && (forall f :: f in files <==> (f in base[..b] || f in added[..a]) && f.number !in deleted)
    && (b < |base| ==> forall f :: f in files ==> BySmallest(f, base[b]))
    && (a < |added| ==> forall f :: f in files ==> BySmallest(f, added[a]))
  }

  /** The loop of SaveLevel: goes through the added files in order, each one after all
      base files that come before it. */
  method MergeLevel(baseFiles: seq<FileMeta>, added: seq<FileMeta>, deleted: set<nat>) returns (files: seq<FileMeta>)
    requires SortedFiles(baseFiles) && SortedFiles(added)
    requires forall f, g :: f in baseFiles && g in added ==> !SamePlace(f, g)
    ensures SavedLevel(files, baseFiles, LevelState(deleted, added))
  {
    hide Merged, SortedFiles, BySmallest, SamePlace, SavedLevel;
    files := [];
    var b := 0;
    MergedNone(baseFiles, added, deleted);
    for a := 0 to |added|
      invariant b <= |baseFiles|
      invariant Merged(files, baseFiles, b, added, a, deleted)
    {
      // all base files up to the upper bound of the added one
      while b < |baseFiles| && !BySmallest(added[a], baseFiles[b])
        invariant b <= |baseFiles|
        invariant Merged(files, baseFiles, b, added, a, deleted)
      {
        BaseComesFirst(baseFiles, b, added, a);
        MergedBase(files, baseFiles, b, added, a, deleted);
        if baseFiles[b].number !in deleted {
          files := files + [baseFiles[b]];
        }
        b := b + 1;
      }
      MergedAdded(files, baseFiles, b, added, a, deleted);
      if added[a].number !in deleted {
        files := files + [added[a]];
      }
    }
    while b < |baseFiles|
      invariant b <= |baseFiles|
      invariant Merged(files, baseFiles, b, added, |added|, deleted)
    {
      MergedBase(files, baseFiles, b, added, |added|, deleted);
      if baseFiles[b].number !in deleted {
        files := files + [baseFiles[b]];
      }
      b := b + 1;
    }
    MergedDone(files, baseFiles, added, deleted);
  }

  lemma MergedNone(base: seq<FileMeta>, added: seq<FileMeta>, deleted: set<nat>)
    requires SortedFiles(base) && SortedFiles(added)
    ensures Merged([], base, 0, added, 0, deleted)
  {
  }

  lemma MergedBase(files: seq<FileMeta>, base: seq<FileMeta>, b: nat, added: seq<FileMeta>, a: nat, deleted: set<nat>)
    requires Merged(files, base, b, added, a, deleted) && b < |base|
    requires a < |added| ==> BySmallest(base[b], added[a])
    ensures Merged(if base[b].number in deleted then files else files + [base[b]], base, b + 1, added, a, deleted)
  {
    assert base[..b + 1] == base[..b] + [base[b]];
    if b + 1 < |base| {
      forall f | f in files
        ensures BySmallest(f, base[b + 1])
      {
        BySmallestTransitive(f, base[b], base[b + 1]);
      }
    }
  }

  lemma BaseComesFirst(base: seq<FileMeta>, b: nat, added: seq<FileMeta>, a: nat)
    requires b < |base| && a < |added| && !BySmallest(added[a], base[b])
    requires forall f, g :: f in base && g in added ==> !SamePlace(f, g)
    ensures BySmallest(base[b], added[a])
  {
    assert base[b] in base && added[a] in added;
    BySmallestTotal(base[b], added[a]);
  }

  lemma MergedDone(files: seq<FileMeta>, base: seq<FileMeta>, added: seq<FileMeta>, deleted: set<nat>)
    requires Merged(files, base, |base|, added, |added|, deleted)
    ensures SavedLevel(files, base, LevelState(deleted, added))
  {
    assert base[..|base|] == base && added[..|added|] == added;
  }

  lemma MergedAdded(files: seq<FileMeta>, base: seq<FileMeta>, b: nat, added: seq<FileMeta>, a: nat, deleted: set<nat>)
    requires Merged(files, base, b, added, a, deleted) && a < |added|
    requires b < |base| ==> BySmallest(added[a], base[b])
    ensures Merged(if added[a].number in deleted then files else files + [added[a]], base, b, added, a + 1, deleted)
  {
    assert added[..a + 1] == added[..a] + [added[a]];
    if a + 1 < |added| {
      forall f | f in files
        ensures BySmallest(f, added[a + 1])
      {
        BySmallestTransitive(f, added[a], added[a + 1]);
      }
    }
  }
}
