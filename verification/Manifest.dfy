/** The manifest: LogAndApply writes version edits to a log, and Recover rebuilds the
    version from them, all edits going through one builder. */
module Manifest {
  import opened Keys
  import opened Files
  import opened Compactions
  import opened Lsm
  import opened Builders
  import opened Install
  import opened Coding
  import opened Logs
  import opened Recovery
  import opened VersionEdits

  function ToFileEdit(e: VersionEdit): FileEdit {
    FileEdit((set p | p in e.deletedFiles), e.newFiles)
  }

  const NO_FILES: Version := [[], [], [], [], [], [], []]

  // ------------------------------------------------------------------ many edits, one builder

  /** The state of one level after the builder has been given the edits. */
  function Accumulated(level: nat, edits: seq<VersionEdit>): LevelState {
    if edits == [] then LevelState({}, []) else
    ApplyToLevel(Accumulated(level, edits[..|edits| - 1]), level, ToFileEdit(edits[|edits| - 1]))
  }

  /** The versions that result from applying the edits one at a time. */
  ghost predicate Chain(versions: seq<Version>, edits: seq<VersionEdit>) {
    && |versions| == |edits| + 1 && versions[0] == NO_FILES
    && forall i :: 0 <= i < |edits| ==> Edited(versions[i], versions[i + 1], ToFileEdit(edits[i]))
  }

  /** The edit adds a file of this number to the level. */
  ghost predicate Adds(e: VersionEdit, level: nat, number: nat) {
    exists f :: (level, f) in e.newFiles && f.number == number
  }

  /** No edit adds two files of one number to a level. */
  ghost predicate AddsApart(e: VersionEdit) {
    forall p, q :: p in e.newFiles && q in e.newFiles && p.0 == q.0 && p.1.number == q.1.number ==> p == q
  }

  /** No (level, number) is added twice. */
  ghost predicate AddedOnce(edits: seq<VersionEdit>) {
    && (forall i :: 0 <= i < |edits| ==> AddsApart(edits[i]))
    && (forall i, j, l, n :: 0 <= i < j < |edits| && Adds(edits[i], l, n) ==> !Adds(edits[j], l, n))
  }

  /** Some edit adds the file to the level. */
  ghost predicate AddedBy(edits: seq<VersionEdit>, level: nat, f: FileMeta) {
    exists i :: 0 <= i < |edits| && (level, f) in edits[i].newFiles
  }

  /** The accumulated state stands for the level of the version. */
  ghost predicate StandsFor(s: LevelState, files: seq<FileMeta>, edits: seq<VersionEdit>, level: nat) {
    && SortedFiles(s.added)
    && (forall f :: f in s.added ==> AddedBy(edits, level, f))
    && (forall f :: f in files <==> f in s.added && f.number !in s.deleted)
  }

  /** Adding files with new numbers. */
  lemma {:induction false} AddFilesNew(s: LevelState, level: nat, files: seq<(nat, FileMeta)>)
    requires SortedFiles(s.added)
    requires forall p, g :: p in files && p.0 == level && g in s.added ==> p.1.number != g.number
    requires forall p, q :: p in files && q in files && p.0 == q.0 && p.1.number == q.1.number ==> p == q
    ensures var s' := AddFiles(s, level, files);
            && SortedFiles(s'.added)
            && (forall f :: f in s'.added <==> f in s.added || (level, f) in files)
            && (forall n :: n in s'.deleted <==> n in s.deleted && !(exists f :: (level, f) in files && f.number == n))
  {
    hide InsertFile, SortedFiles, BySmallest;
    if files != [] {
      var n := |files| - 1;
      var rest, p := files[..n], files[n];
      assert files == rest + [p];
      AddFilesNew(s, level, rest);
      var s1 := AddFiles(s, level, rest);
      assert AddFiles(s, level, files) ==
             if p.0 == level then LevelState(s1.deleted - {p.1.number}, InsertFile(s1.added, p.1)) else s1;
      if p.0 == level {
        assert p == (level, p.1);
        forall g | g in s1.added && SamePlace(p.1, g)
          ensures p.1 == g
        {
          assert g in s.added || (level, g) in files;
        }
        InsertFileOk(s1.added, p.1);
      }
      forall f
        ensures (level, f) in files <==> (level, f) in rest || (p.0 == level && f == p.1)
      {
      }
    }
  }

  /** One more edit: the builder's state follows the version. */
  lemma StandsForNext(s: LevelState, v: Version, v': Version, edits: seq<VersionEdit>, e: VersionEdit, level: nat)
    requires level < NUM_LEVELS <= |v| && |v'| >= NUM_LEVELS && StandsFor(s, v[level], edits, level)
    requires Edited(v, v', ToFileEdit(e)) && AddedOnce(edits + [e])
    ensures StandsFor(ApplyToLevel(s, level, ToFileEdit(e)), v'[level], edits + [e], level)
  {
    var edit, all := ToFileEdit(e), edits + [e];
    var s0 := LevelState(s.deleted + set p | p in edit.deletedFiles && p.0 == level :: p.1, s.added);
    assert all[|edits|] == e && forall i :: 0 <= i < |edits| ==> all[i] == edits[i];
    forall p, g | p in e.newFiles && p.0 == level && g in s.added
      ensures p.1.number != g.number
    {
      var i :| 0 <= i < |edits| && (level, g) in edits[i].newFiles;
      assert Adds(all[i], level, g.number);
      assert !Adds(all[|edits|], level, g.number);
      assert p == (level, p.1);
    }
    AddFilesNew(s0, level, e.newFiles);
    var s' := ApplyToLevel(s, level, edit);
    forall f
      ensures f in v'[level] <==> f in s'.added && f.number !in s'.deleted
      ensures f in s'.added ==> AddedBy(all, level, f)
    {
      DeletedNumbers(edit, level, f.number);
      if f in s.added {
        var i :| 0 <= i < |edits| && (level, f) in edits[i].newFiles;
        assert (level, f) in all[i].newFiles;
      }
      if (level, f) in e.newFiles {
        assert (level, f) in all[|edits|].newFiles;
      }
    }
  }

  lemma DeletedNumbers(edit: FileEdit, level: nat, n: nat)
    ensures n in (set p | p in edit.deletedFiles && p.0 == level :: p.1) <==> (level, n) in edit.deletedFiles
  {
    if (level, n) in edit.deletedFiles {
      assert (level, n).0 == level;
    }
  }

  /** Giving all edits to one builder is as good as making every version in between. */
  lemma {:induction false} OneBuilder(versions: seq<Version>, edits: seq<VersionEdit>, level: nat)
    requires Chain(versions, edits) && AddedOnce(edits) && level < NUM_LEVELS
    ensures |versions[|edits|]| == NUM_LEVELS
    ensures StandsFor(Accumulated(level, edits), versions[|edits|][level], edits, level)
    decreases |edits|
  {
    hide Edited, ApplyToLevel, Adds, AddsApart;
    if edits != [] {
      var n := |edits| - 1;
      assert edits == edits[..n] + [edits[n]];
      assert forall i :: 0 <= i < n ==> edits[..n][i] == edits[i];
      OneBuilder(versions[..n + 1], edits[..n], level);
      assert Edited(versions[n], versions[n + 1], ToFileEdit(edits[n]));
      EditedLevels(versions[n], versions[n + 1], ToFileEdit(edits[n]));
      StandsForNext(Accumulated(level, edits[..n]), versions[n], versions[n + 1], edits[..n], edits[n], level);
    }
  }

  lemma EditedLevels(v: Version, v': Version, e: FileEdit)
    requires Edited(v, v', e)
    ensures |v| == |v'| == NUM_LEVELS
    ensures forall l :: 0 <= l < NUM_LEVELS ==> SortedFiles(v'[l])
  {
  }

  /** What the builder saves for a level is the level of the version. */
  lemma SavedIsVersion(s: LevelState, files: seq<FileMeta>, saved: seq<FileMeta>, edits: seq<VersionEdit>, level: nat)
    requires StandsFor(s, files, edits, level) && SortedFiles(files) && SavedLevel(saved, [], s)
    ensures saved == files
  {
    hide SortedFiles;
    SortedFilesUnique(saved, files);
  }

  // ------------------------------------------------------------------ what the edits note

  /** The numbers and compaction pointers that a sequence of edits leaves behind. */
  datatype Noted = Noted(
    logNumber: Option<nat>, prevLogNumber: Option<nat>, nextFileNumber: Option<nat>, lastSequence: Option<nat>,
    pointers: seq<Option<InternalKey>>)

  function Newer(before: Option<nat>, n: Option<nat>): Option<nat> {
    if n.Some? then n else before
  }

  /** Each pointer of an edit replaces the one of its level. */
  function NotePointers(ps: seq<Option<InternalKey>>, news: seq<(nat, InternalKey)>): (r: seq<Option<InternalKey>>)
    ensures |r| == |ps|
  {
    if news == [] then ps else
    var rest, p := NotePointers(ps, news[..|news| - 1]), news[|news| - 1];
    if p.0 < |ps| then rest[p.0 := Some(p.1)] else rest
  }

  function Note(n: Noted, e: VersionEdit): (r: Noted)
    ensures |r.pointers| == |n.pointers|
  {
    Noted(Newer(n.logNumber, e.logNumber), Newer(n.prevLogNumber, e.prevLogNumber),
          Newer(n.nextFileNumber, e.nextFileNumber), Newer(n.lastSequence, e.lastSequence),
          NotePointers(n.pointers, e.compactPointers))
  }

  function NothingNoted(): (n: Noted)
    ensures |n.pointers| == NUM_LEVELS
  {
    Noted(None, None, None, None, seq(NUM_LEVELS, _ => None))
  }

  function NotedBy(edits: seq<VersionEdit>): (n: Noted)
    ensures |n.pointers| == NUM_LEVELS
  {
    if edits == [] then NothingNoted() else Note(NotedBy(edits[..|edits| - 1]), edits[|edits| - 1])
  }

  // ------------------------------------------------------------------ the manifest as a log

  /** An edit that can be stored and belongs to a database with this comparator. */
  ghost predicate RecordOk(c: KeyCodec, name: Bytes, e: VersionEdit) {
    EditFits(c, e) && EditOk(ToFileEdit(e)) && (e.comparator.None? || e.comparator.value == name)
  }

  ghost predicate RecordsOk(c: KeyCodec, name: Bytes, edits: seq<VersionEdit>) {
    forall i :: 0 <= i < |edits| ==> RecordOk(c, name, edits[i])
  }

  function Encoded(c: KeyCodec, edits: seq<VersionEdit>): (r: seq<Bytes>)
    ensures |r| == |edits| && forall i :: 0 <= i < |r| ==> r[i] == Encode(c, edits[i])
  {
    seq(|edits|, i requires 0 <= i < |edits| => Encode(c, edits[i]))
  }

  /** The file is what a crash may leave of the manifest of the edits. */
  ghost predicate ManifestOf(c: KeyCodec, name: Bytes, step: CrcStep, file: Bytes, edits: seq<VersionEdit>) {
    RecordsOk(c, name, edits) && file <= LogFrom(step, Encoded(c, edits), 0)
  }

  // ------------------------------------------------------------------ recovering

  datatype RecoverStatus = RecoverOk | CorruptManifest | WrongComparator | MissingNumber

  ghost predicate BuilderHas(b: Builder, edits: seq<VersionEdit>)
    reads b
  {
    b.Ok() && b.base == NO_FILES && LevelsAre(b.levels, edits)
  }

  ghost predicate LevelsAre(levels: seq<LevelState>, edits: seq<VersionEdit>) {
    |levels| == NUM_LEVELS && forall l :: 0 <= l < NUM_LEVELS ==> levels[l] == Accumulated(l, edits)
  }

  ghost predicate LevelsNext(before: seq<LevelState>, after: seq<LevelState>, e: VersionEdit) {
    && |before| == |after| == NUM_LEVELS
    && forall l :: 0 <= l < NUM_LEVELS ==> after[l] == ApplyToLevel(before[l], l, ToFileEdit(e))
  }

  /** The reader has read the first k edits, and the builder has applied them. */
  ghost predicate ReachedEdit(reader: LogReader, b: Builder, c: KeyCodec, name: Bytes, edits: seq<VersionEdit>, k: nat, noted: Noted)
    reads reader, b
  {
    && ManifestOf(c, name, reader.step, reader.file, edits) && k <= |edits|
    && reader.Pos() >= 0 && Standing(reader.step, reader.file, Encoded(c, edits), k, reader.Pos())
    && BuilderHas(b, edits[..k]) && noted == NotedBy(edits[..k])
  }

  /** The first k edits are all that the file holds, and the builder has applied them. */
  ghost predicate ReadAll(reader: LogReader, b: Builder, c: KeyCodec, edits: seq<VersionEdit>, k: nat, noted: Noted)
    reads b
  {
    && k == Complete(reader.step, Encoded(c, edits), 0, |reader.file|)
    && k <= |edits| && BuilderHas(b, edits[..k]) && noted == NotedBy(edits[..k])
  }

  lemma AccumulatedNext(edits: seq<VersionEdit>, k: nat)
    requires k < |edits|
    ensures forall l: nat :: Accumulated(l, edits[..k + 1]) == ApplyToLevel(Accumulated(l, edits[..k]), l, ToFileEdit(edits[k]))
    ensures NotedBy(edits[..k + 1]) == Note(NotedBy(edits[..k]), edits[k])
  {
    assert edits[..k + 1][..k] == edits[..k];
  }

  lemma ExpectEdit(c: KeyCodec, name: Bytes, step: CrcStep, file: Bytes, edits: seq<VersionEdit>, k: nat, pos: nat)
    returns (data: Bytes)
    requires RecordsOk(c, name, edits) && Standing(step, file, Encoded(c, edits), k, pos) && k <= |edits|
    ensures Agrees(file, pos, Fragments(step, data, pos, true))
    ensures var end := pos + |Fragments(step, data, pos, true)|;
            if end <= |file| then
              && k < |edits| && Standing(step, file, Encoded(c, edits), k + 1, end)
              && RecordOk(c, name, edits[k]) && ParseFields(c, data, EMPTY_EDIT) == Some(edits[k])
            else k == Complete(step, Encoded(c, edits), 0, |file|)
  {
    hide Agrees, Fragments, Complete, LogFrom, Standing, Encode, ParseFields, EditFits;
    data := if k < |edits| then Encoded(c, edits)[k] else [];
    StandingNext(step, file, Encoded(c, edits), k, pos, data);
    if k < |edits| {
      assert RecordOk(c, name, edits[k]);
      EditRoundTrip(c, edits[k]);
    }
  }

  /** Decodes a record and gives its edit to the builder. */
  method ApplyRecord(record: Bytes, b: Builder, c: KeyCodec, name: Bytes, noted: Noted)
    returns (status: RecoverStatus, noted': Noted)
    requires b.Ok() && |noted.pointers| == NUM_LEVELS
    modifies b
    ensures b.Ok() && |noted'.pointers| == NUM_LEVELS
    ensures var e := ParseFields(c, record, EMPTY_EDIT);
            e.Some? && (e.value.comparator.None? || e.value.comparator.value == name) ==>
              status == RecoverOk && noted' == Note(noted, e.value) && LevelsNext(old(b.levels), b.levels, e.value)
  {
    hide ParseFields, ApplyToLevel, Note, EditOk, ToFileEdit;
    status, noted' := RecoverOk, noted;
    var edit := DecodeFrom(c, record);
    if edit.None? {
      status := CorruptManifest;
    } else if edit.value.comparator.Some? && edit.value.comparator.value != name {
      status := WrongComparator;
    } else {
      LevelsInRange(c, record, edit.value);
      b.Apply(ToFileEdit(edit.value));
      noted' := Note(noted, edit.value);
    }
  }

  lemma LevelsReach(before: seq<LevelState>, after: seq<LevelState>, edits: seq<VersionEdit>, k: nat)
    requires k < |edits| && LevelsAre(before, edits[..k]) && LevelsNext(before, after, edits[k])
    ensures LevelsAre(after, edits[..k + 1]) && NotedBy(edits[..k + 1]) == Note(NotedBy(edits[..k]), edits[k])
  {
    AccumulatedNext(edits, k);
    hide Accumulated, ApplyToLevel, NotedBy, Note, ToFileEdit;
  }

  lemma RecordParts(c: KeyCodec, name: Bytes, e: VersionEdit)
    requires RecordOk(c, name, e)
    ensures e.comparator.None? || e.comparator.value == name
  {
  }

  /** One round of the loop of Recover. */
  method RecoverNext(reader: LogReader, b: Builder, c: KeyCodec, name: Bytes, noted: Noted, ghost edits: seq<VersionEdit>,
                     ghost k: nat, ghost fine: bool)
    returns (more: bool, status: RecoverStatus, noted': Noted)
    requires reader.Ok() && b.Ok() && |noted.pointers| == NUM_LEVELS
    requires fine ==> ReachedEdit(reader, b, c, name, edits, k, noted)
    modifies reader`buffer, reader`eof, reader`endOfBuffer, reader`reports, b
    ensures reader.Ok() && b.Ok() && (more ==> reader.Pos() > old(reader.Pos())) && |noted'.pointers| == NUM_LEVELS
    ensures fine ==> status == RecoverOk
    ensures fine && more ==> ReachedEdit(reader, b, c, name, edits, k + 1, noted')
    ensures fine && !more ==> ReadAll(reader, b, c, edits, k, noted')
  {
    hide Vouched, Agrees, Fragments, LogFrom, Complete, Standing, LogReader.Ok, Builder.Ok, ParseFields, RecordOk, RecordsOk,
      NotedBy, Note, Encoded, LevelsAre, LevelsNext, ApplyToLevel, ToFileEdit, ManifestOf;
    ghost var data: Bytes := [];
    if fine {
      ManifestParts(c, name, reader.step, reader.file, edits);
      data := ExpectEdit(c, name, reader.step, reader.file, edits, k, reader.Pos());
    }
    status, noted' := RecoverOk, noted;
    var seen := reader.reports;
    var record := reader.ReadRecord(data);
    more := record.Some?;
    if reader.reports > seen {
      status := CorruptManifest;
    } else if more {
      if fine {
        RecordParts(c, name, edits[k]);
      }
      ghost var before := b.levels;
      status, noted' := ApplyRecord(record.value, b, c, name, noted);
      if fine {
        LevelsReach(before, b.levels, edits, k);
      }
    }
  }

  lemma ManifestParts(c: KeyCodec, name: Bytes, step: CrcStep, file: Bytes, edits: seq<VersionEdit>)
    requires ManifestOf(c, name, step, file, edits)
    ensures RecordsOk(c, name, edits)
  {
  }

  ghost predicate InRange(e: VersionEdit) {
    && (forall p :: p in e.deletedFiles ==> p.0 < NUM_LEVELS)
    && (forall p :: p in e.newFiles ==> p.0 < NUM_LEVELS)
  }

  /** Decoding lets only levels that exist through. */
  lemma {:induction false} LevelsParsed(c: KeyCodec, b: Bytes, e: VersionEdit)
    requires InRange(e) && ParseFields(c, b, e).Some?
    ensures InRange(ParseFields(c, b, e).value)
    decreases |b|
  {
    hide GetVarint64, GetVarint32, GetInternalKey, FromLengthPrefixed;
    var p := ParseField(c, b);
    if p.Got? {
      assert InRange(AddField(e, p.field));
      LevelsParsed(c, p.rest, AddField(e, p.field));
    }
  }

  lemma LevelsInRange(c: KeyCodec, b: Bytes, e: VersionEdit)
    requires ParseFields(c, b, EMPTY_EDIT) == Some(e)
    ensures EditOk(ToFileEdit(e))
  {
    LevelsParsed(c, b, EMPTY_EDIT);
    hide ParseFields;
  }

  /** What Recover installs. */
  datatype Recovered = Recovered(
    version: Version, manifestFileNumber: nat, nextFileNumber: nat, lastSequence: nat, logNumber: nat, prevLogNumber: nat,
    pointers: seq<Option<InternalKey>>)

  lemma {:induction false} ChainPrefix(versions: seq<Version>, edits: seq<VersionEdit>, k: nat)
    requires Chain(versions, edits) && k <= |edits|
    ensures Chain(versions[..k + 1], edits[..k])
  {
    hide Edited;
  }

  lemma AddedOncePrefix(edits: seq<VersionEdit>, k: nat)
    requires AddedOnce(edits) && k <= |edits|
    ensures AddedOnce(edits[..k])
  {
    hide AddsApart, Adds;
  }

  /** The version saved from the builder is the one that edit by edit leads to. */
  lemma BuilderSaves(levels: seq<LevelState>, saved: Version, versions: seq<Version>, edits: seq<VersionEdit>, k: nat)
    requires Chain(versions, edits) && AddedOnce(edits) && k <= |edits| && LevelsAre(levels, edits[..k])
    requires |saved| == NUM_LEVELS && forall l :: 0 <= l < NUM_LEVELS ==> SavedLevel(saved[l], [], levels[l])
    ensures saved == versions[k]
  {
    ChainPrefix(versions, edits, k);
    AddedOncePrefix(edits, k);
    VersionLevels(versions, edits, k);
    hide AddedOnce, Accumulated, StandsFor, SavedLevel, SortedFiles;
    forall l | 0 <= l < NUM_LEVELS
      ensures saved[l] == versions[k][l]
    {
      OneBuilder(versions[..k + 1], edits[..k], l);
      SavedIsVersion(levels[l], versions[k][l], saved[l], edits[..k], l);
    }
  }

  lemma VersionLevels(versions: seq<Version>, edits: seq<VersionEdit>, k: nat)
    requires Chain(versions, edits) && k <= |edits|
    ensures |versions[k]| == NUM_LEVELS && forall l :: 0 <= l < NUM_LEVELS ==> SortedFiles(versions[k][l])
  {
    if k > 0 {
      EditedLevels(versions[k - 1], versions[k], ToFileEdit(edits[k - 1]));
    }
  }

  lemma NothingReached(b: Builder, c: KeyCodec, name: Bytes, step: CrcStep, file: Bytes, edits: seq<VersionEdit>)
    requires ManifestOf(c, name, step, file, edits) && b.Ok() && b.base == NO_FILES
    requires forall l :: 0 <= l < NUM_LEVELS ==> b.levels[l] == LevelState({}, [])
    ensures Standing(step, file, Encoded(c, edits), 0, 0) && BuilderHas(b, edits[..0]) && NothingNoted() == NotedBy(edits[..0])
  {
    StandingStart(step, file, Encoded(c, edits));
    hide Standing;
  }

  /** VersionSet::Recover: all records of the manifest go through one builder.  Cut short
      anywhere, the manifest of some edits, none of which adds a (level, number) again,
      gives the version, numbers and pointers after a prefix of the edits. */
  method Recover(c: KeyCodec, name: Bytes, step: CrcStep, file: Bytes, ghost edits: seq<VersionEdit>, ghost versions: seq<Version>)
    returns (status: RecoverStatus, r: Option<Recovered>)
    ensures status == RecoverOk <==> r.Some?
    ensures ManifestOf(c, name, step, file, edits) && AddedOnce(edits) && Chain(versions, edits) ==>
              var k := Complete(step, Encoded(c, edits), 0, |file|);
              var n := NotedBy(edits[..k]);
              if n.nextFileNumber.Some? && n.logNumber.Some? && n.lastSequence.Some? then
                r == Some(Recovered(versions[k], n.nextFileNumber.value, n.nextFileNumber.value + 1, n.lastSequence.value,
                                    n.logNumber.value, OrZero(n.prevLogNumber), n.pointers))
              else status == MissingNumber
  {
    hide Complete, Standing, LogReader.Ok, Encoded, NotedBy, ManifestOf, LevelsAre, AddedOnce, Chain, NothingNoted, LogFrom;
    var b := new Builder(NO_FILES);
    var reader := new LogReader(step, file);
    var noted := NothingNoted();
    ghost var k: nat := 0;
    ghost var fine := ManifestOf(c, name, step, file, edits);
    if fine {
      NothingReached(b, c, name, step, file, edits);
    }
    var more := true;
    status := RecoverOk;
    reader.InFile();
    while more && status == RecoverOk
      invariant reader.Ok() && b.Ok() && fresh(b) && fresh(reader) && reader.step == step && reader.file == file
      invariant reader.Pos() <= |file| && |noted.pointers| == NUM_LEVELS && b.base == NO_FILES
      invariant fine ==> status == RecoverOk
      invariant fine && more ==> ReachedEdit(reader, b, c, name, edits, k, noted)
      invariant fine && !more ==> ReadAll(reader, b, c, edits, k, noted)
      decreases more, |file| - reader.Pos()
    {
      more, status, noted := RecoverNext(reader, b, c, name, noted, edits, k, fine);
      reader.InFile();
      if more {
        k := k + 1;
      }
    }
    status, r := InstallRecovered(status, b, noted);
    if fine && AddedOnce(edits) && Chain(versions, edits) && r.Some? {
      BuilderSaves(b.levels, r.value.version, versions, edits, k);
    }
  }

  /** The last part of Recover: checks that the numbers were there and saves the version. */
  method InstallRecovered(status: RecoverStatus, b: Builder, noted: Noted) returns (status': RecoverStatus, r: Option<Recovered>)
    requires b.Ok() && b.base == NO_FILES
    ensures status' == RecoverOk <==> r.Some?
    ensures status == RecoverOk ==>
              if noted.nextFileNumber.Some? && noted.logNumber.Some? && noted.lastSequence.Some? then
                && r.Some? && |r.value.version| == |b.levels| == NUM_LEVELS
                && r.value == Recovered(r.value.version, noted.nextFileNumber.value, noted.nextFileNumber.value + 1,
                                        noted.lastSequence.value, noted.logNumber.value, OrZero(noted.prevLogNumber), noted.pointers)
                && forall l :: 0 <= l < NUM_LEVELS ==> SavedLevel(r.value.version[l], [], b.levels[l])
              else status' == MissingNumber
  {
    status', r := status, None;
    if status != RecoverOk {
      return;
    }
    if noted.nextFileNumber.None? || noted.logNumber.None? || noted.lastSequence.None? {
      status' := MissingNumber;
      return;
    }
    hide SavedLevel;
    NoFilesSorted();
    var v := b.SaveTo();
    var next := noted.nextFileNumber.value;
    r := Some(Recovered(v, next, next + 1, noted.lastSequence.value, noted.logNumber.value, OrZero(noted.prevLogNumber), noted.pointers));
  }

  lemma NoFilesSorted()
    ensures forall l :: 0 <= l < NUM_LEVELS ==> SortedFiles(NO_FILES[l]) && NO_FILES[l] == []
  {
  }

  // ------------------------------------------------------------------ the snapshot record

  function LevelFiles(level: nat, files: seq<FileMeta>): (r: seq<(nat, FileMeta)>)
    ensures |r| == |files| && forall i :: 0 <= i < |r| ==> r[i] == (level, files[i])
  {
    seq(|files|, i requires 0 <= i < |files| => (level, files[i]))
  }

  /** The files of the levels below `n`, level by level. */
  function AllFiles(v: Version, n: nat): seq<(nat, FileMeta)>
    requires n <= |v|
  {
    if n == 0 then [] else AllFiles(v, n - 1) + LevelFiles(n - 1, v[n - 1])
  }

  lemma {:induction false} AllFilesHas(v: Version, n: nat, p: (nat, FileMeta))
    requires n <= |v|
    ensures p in AllFiles(v, n) <==> p.0 < n && p.1 in v[p.0]
  {
    if n > 0 {
      AllFilesHas(v, n - 1, p);
      var last := LevelFiles(n - 1, v[n - 1]);
      if p.0 == n - 1 && p.1 in v[n - 1] {
        var i :| 0 <= i < |v[n - 1]| && v[n - 1][i] == p.1;
        assert last[i] == p;
      }
    }
  }

  /** The compaction pointers that are set, for the levels below `n`. */
  function PointersOf(ps: seq<Option<InternalKey>>, n: nat): seq<(nat, InternalKey)>
    requires n <= |ps|
  {
    if n == 0 then [] else
    PointersOf(ps, n - 1) + if ps[n - 1].Some? then [(n - 1, ps[n - 1].value)] else []
  }

  /** Noting the pointers of a snapshot restores them. */
  lemma {:induction false} PointersRestored(start: seq<Option<InternalKey>>, ps: seq<Option<InternalKey>>, n: nat)
    requires |start| == |ps| && n <= |ps| && forall i :: 0 <= i < |start| ==> start[i] == None
    ensures forall i :: 0 <= i < |ps| ==> NotePointers(start, PointersOf(ps, n))[i] == if i < n then ps[i] else None
  {
    hide PointersOf, NotePointers;
    if n == 0 {
      NoPointers(start, ps);
    } else {
      PointersRestored(start, ps, n - 1);
      PointersNext(start, ps, n);
    }
  }

  lemma NoPointers(start: seq<Option<InternalKey>>, ps: seq<Option<InternalKey>>)
    ensures NotePointers(start, PointersOf(ps, 0)) == start
  {
  }

  lemma PointersNext(start: seq<Option<InternalKey>>, ps: seq<Option<InternalKey>>, n: nat)
    requires |start| == |ps| && 0 < n <= |ps|
    ensures var before := NotePointers(start, PointersOf(ps, n - 1));
            NotePointers(start, PointersOf(ps, n)) == if ps[n - 1].Some? then before[n - 1 := ps[n - 1]] else before
  {
    if ps[n - 1].Some? {
      var news := PointersOf(ps, n);
      assert news[..|news| - 1] == PointersOf(ps, n - 1);
    } else {
      assert PointersOf(ps, n - 1) + [] == PointersOf(ps, n - 1);
    }
  }

  function SnapshotEdit(name: Bytes, pointers: seq<Option<InternalKey>>, v: Version): VersionEdit
    requires |pointers| == |v| == NUM_LEVELS
  {
    VersionEdit(Some(name), None, None, None, None, PointersOf(pointers, NUM_LEVELS), [], AllFiles(v, NUM_LEVELS))
  }

  /** WriteSnapshot: the comparator, the compaction pointers and the files of the version. */
  method WriteSnapshot(name: Bytes, pointers: seq<Option<InternalKey>>, v: Version) returns (edit: VersionEdit)
    requires |pointers| == |v| == NUM_LEVELS
    ensures edit == SnapshotEdit(name, pointers, v)
  {
    edit := EMPTY_EDIT.(comparator := Some(name));
    for level := 0 to NUM_LEVELS
      invariant edit == EMPTY_EDIT.(comparator := Some(name), compactPointers := PointersOf(pointers, level))
    {
      if pointers[level].Some? {
        edit := edit.(compactPointers := edit.compactPointers + [(level, pointers[level].value)]);
      } else {
        assert edit.compactPointers + [] == edit.compactPointers;
      }
    }
    for level := 0 to NUM_LEVELS
      invariant edit == EMPTY_EDIT.(comparator := Some(name), compactPointers := PointersOf(pointers, NUM_LEVELS),
                                    newFiles := AllFiles(v, level))
    {
      var files := v[level];
      for i := 0 to |files|
        invariant edit == EMPTY_EDIT.(comparator := Some(name), compactPointers := PointersOf(pointers, NUM_LEVELS),
                                      newFiles := AllFiles(v, level) + LevelFiles(level, files[..i]))
      {
        assert LevelFiles(level, files[..i + 1]) == LevelFiles(level, files[..i]) + [(level, files[i])];
        edit := edit.(newFiles := edit.newFiles + [(level, files[i])]);
      }
      assert files[..|files|] == files;
    }
  }

  // ------------------------------------------------------------------ edits that can be stored

  /** The parts of the edit fit their stored form. */
  ghost predicate PartsFit(c: KeyCodec, e: VersionEdit) {
    && (e.comparator.Some? ==> |e.comparator.value| < WORD)
    && OrZero(e.logNumber) < LONG && OrZero(e.prevLogNumber) < LONG
    && OrZero(e.nextFileNumber) < LONG && OrZero(e.lastSequence) < LONG
    && (forall i :: 0 <= i < |e.compactPointers| ==> e.compactPointers[i].0 < NUM_LEVELS && c.Stores(e.compactPointers[i].1))
    && SortedPairs(e.deletedFiles)
    && (forall i :: 0 <= i < |e.deletedFiles| ==> e.deletedFiles[i].0 < NUM_LEVELS && e.deletedFiles[i].1 < LONG)
    && (forall i :: 0 <= i < |e.newFiles| ==> e.newFiles[i].0 < NUM_LEVELS && FileFits(c, e.newFiles[i].1))
  }

  ghost predicate AllFit(c: KeyCodec, fs: seq<Field>) {
    forall i :: 0 <= i < |fs| ==> FieldFits(c, fs[i])
  }

  lemma AllFitJoin(c: KeyCodec, a: seq<Field>, b: seq<Field>)
    requires AllFit(c, a) && AllFit(c, b)
    ensures AllFit(c, a + b)
  {
    hide FieldFits;
  }

  lemma NumbersFit(c: KeyCodec, e: VersionEdit)
    requires PartsFit(c, e)
    ensures AllFit(c, Numbers(e))
  {
  }

  lemma PartsMakeFit(c: KeyCodec, e: VersionEdit)
    requires PartsFit(c, e)
    ensures EditFits(c, e) && EditOk(ToFileEdit(e))
  {
    NumbersFit(c, e);
    assert AllFit(c, Pointers(e.compactPointers)) && AllFit(c, Deletions(e.deletedFiles)) && AllFit(c, Additions(e.newFiles));
    hide AllFit, Numbers, Pointers, Deletions, Additions;
    AllFitJoin(c, Numbers(e), Pointers(e.compactPointers));
    AllFitJoin(c, Numbers(e) + Pointers(e.compactPointers), Deletions(e.deletedFiles));
    AllFitJoin(c, Numbers(e) + Pointers(e.compactPointers) + Deletions(e.deletedFiles), Additions(e.newFiles));
    FitByAll(c, e);
  }

  lemma FitByAll(c: KeyCodec, e: VersionEdit)
    requires AllFit(c, Fields(e)) && PartsFit(c, e)
    ensures EditFits(c, e) && EditOk(ToFileEdit(e))
  {
    hide Fields, FieldFits;
    forall p | p in e.newFiles
      ensures p.0 < NUM_LEVELS
    {
      var i :| 0 <= i < |e.newFiles| && e.newFiles[i] == p;
    }
    forall p | p in e.deletedFiles
      ensures p.0 < NUM_LEVELS
    {
      var i :| 0 <= i < |e.deletedFiles| && e.deletedFiles[i] == p;
    }
  }

  // ------------------------------------------------------------------ logging edits

  /** The bytes of the manifest are those of the edits, which lead to the version and
      leave the pointers. */
  ghost predicate Recorded(c: KeyCodec, name: Bytes, step: CrcStep, dest: Bytes, edits: seq<VersionEdit>, versions: seq<Version>,
                           current: Version, pointers: seq<Option<InternalKey>>)
  {
    && RecordsOk(c, name, edits) && dest == LogFrom(step, Encoded(c, edits), 0)
    && AddedOnce(edits) && Chain(versions, edits) && versions[|edits|] == current
    && NotedBy(edits).pointers == pointers
  }

  lemma RecordedNext(c: KeyCodec, name: Bytes, step: CrcStep, dest: Bytes, edits: seq<VersionEdit>, versions: seq<Version>,
                     current: Version, pointers: seq<Option<InternalKey>>, e: VersionEdit, v: Version)
    requires Recorded(c, name, step, dest, edits, versions, current, pointers)
    requires RecordOk(c, name, e) && AddsApart(e) && Edited(current, v, ToFileEdit(e))
    requires forall i, l, n :: 0 <= i < |edits| && Adds(edits[i], l, n) ==> !Adds(e, l, n)
    ensures Recorded(c, name, step, dest + Fragments(step, Encode(c, e), |dest|, true), edits + [e], versions + [v], v,
                     NotePointers(pointers, e.compactPointers))
    ensures NotedBy(edits + [e]) == Note(NotedBy(edits), e)
  {
    hide LogFrom, Fragments, Encode, Edited, ToFileEdit, RecordOk, Adds, AddsApart, NotePointers;
    var more := edits + [e];
    assert more[..|edits|] == edits;
    assert Encoded(c, more) == Encoded(c, edits) + [Encode(c, e)];
    LogAppend(step, Encoded(c, edits), 0, Encode(c, e));
    assert (versions + [v])[..|edits| + 1] == versions;
  }

  lemma NothingRecorded(c: KeyCodec, name: Bytes, step: CrcStep)
    ensures Recorded(c, name, step, [], [], [NO_FILES], NO_FILES, NothingNoted().pointers)
  {
  }

  /** Within a level a number names one file. */
  ghost predicate LevelNumbers(v: Version) {
    forall l, f, g :: 0 <= l < |v| && f in v[l] && g in v[l] && f.number == g.number ==> f == g
  }

  ghost predicate FilesStored(c: KeyCodec, v: Version) {
    && |v| == NUM_LEVELS && LevelNumbers(v)
    && (forall l :: 0 <= l < NUM_LEVELS ==> SortedFiles(v[l]))
    && (forall l, f :: 0 <= l < NUM_LEVELS && f in v[l] ==> FileFits(c, f))
  }

  ghost predicate PointersStored(c: KeyCodec, ps: seq<Option<InternalKey>>) {
    |ps| == NUM_LEVELS && forall i :: 0 <= i < NUM_LEVELS && ps[i].Some? ==> c.Stores(ps[i].value)
  }

  lemma {:induction false} PointersFit(c: KeyCodec, ps: seq<Option<InternalKey>>, n: nat)
    requires PointersStored(c, ps) && n <= NUM_LEVELS
    ensures forall i :: 0 <= i < |PointersOf(ps, n)| ==> PointersOf(ps, n)[i].0 < NUM_LEVELS && c.Stores(PointersOf(ps, n)[i].1)
  {
    if n > 0 {
      PointersFit(c, ps, n - 1);
    }
  }

  lemma {:induction false} NotedPointersStored(c: KeyCodec, ps: seq<Option<InternalKey>>, news: seq<(nat, InternalKey)>)
    requires PointersStored(c, ps) && forall i :: 0 <= i < |news| ==> c.Stores(news[i].1)
    ensures PointersStored(c, NotePointers(ps, news))
  {
    if news != [] {
      NotedPointersStored(c, ps, news[..|news| - 1]);
    }
  }

  /** The snapshot record leads from nothing to the version. */
  lemma SnapshotRecorded(c: KeyCodec, name: Bytes, step: CrcStep, pointers: seq<Option<InternalKey>>, v: Version,
                         e: VersionEdit, dest: Bytes)
    requires FilesStored(c, v) && PointersStored(c, pointers) && |name| < WORD
    requires |v| == |pointers| == NUM_LEVELS && e == SnapshotEdit(name, pointers, v)
    requires dest == [] + Fragments(step, Encode(c, e), 0, true)
    ensures Recorded(c, name, step, dest, [e], [NO_FILES, v], v, pointers)
  {
    NothingRecorded(c, name, step);
    SnapshotFits(c, name, pointers, v);
    SnapshotLeads(name, pointers, v);
    PointersRestored(NothingNoted().pointers, pointers, NUM_LEVELS);
    assert NotePointers(NothingNoted().pointers, e.compactPointers) == pointers;
    hide *;
    RecordedNext(c, name, step, [], [], [NO_FILES], NO_FILES, NothingNoted().pointers, e, v);
    assert [] + [e] == [e] && [NO_FILES] + [v] == [NO_FILES, v];
  }

  lemma SnapshotFits(c: KeyCodec, name: Bytes, pointers: seq<Option<InternalKey>>, v: Version)
    requires FilesStored(c, v) && PointersStored(c, pointers) && |name| < WORD
    ensures RecordOk(c, name, SnapshotEdit(name, pointers, v))
  {
    var e := SnapshotEdit(name, pointers, v);
    PointersFit(c, pointers, NUM_LEVELS);
    hide PointersStored, FileFits, SortedFiles, AllFiles, PointersOf, LevelNumbers;
    forall i | 0 <= i < |e.newFiles|
      ensures e.newFiles[i].0 < NUM_LEVELS && FileFits(c, e.newFiles[i].1)
    {
      AllFilesHas(v, NUM_LEVELS, e.newFiles[i]);
    }
    PartsMakeFit(c, e);
    hide EditFits, EditOk, ToFileEdit;
  }

  lemma SnapshotLeads(name: Bytes, pointers: seq<Option<InternalKey>>, v: Version)
    requires |pointers| == |v| == NUM_LEVELS && LevelNumbers(v) && forall l :: 0 <= l < NUM_LEVELS ==> SortedFiles(v[l])
    ensures AddsApart(SnapshotEdit(name, pointers, v))
    ensures Edited(NO_FILES, v, ToFileEdit(SnapshotEdit(name, pointers, v)))
  {
    var e := SnapshotEdit(name, pointers, v);
    hide SortedFiles, AllFiles, PointersOf;
    forall p: (nat, FileMeta)
      ensures p in e.newFiles <==> p.0 < NUM_LEVELS && p.1 in v[p.0]
    {
      AllFilesHas(v, NUM_LEVELS, p);
    }
    forall l: nat, f: FileMeta | 0 <= l < NUM_LEVELS
      ensures f in v[l] <==> (l, f) in e.newFiles
    {
      AllFilesHas(v, NUM_LEVELS, (l, f));
    }
    NoFilesSorted();
  }

  /** A new log whose one record is a snapshot. */
  method FirstRecord(c: KeyCodec, name: Bytes, step: CrcStep, pointers: seq<Option<InternalKey>>, v: Version)
    returns (manifest: LogWriter, ghost snapshot: VersionEdit)
    requires |name| < WORD && FilesStored(c, v) && PointersStored(c, pointers)
    ensures fresh(manifest) && manifest.Ok() && manifest.step == step && IsSnapshot(snapshot, name, pointers, v)
    ensures Recorded(c, name, step, manifest.dest, [snapshot], [NO_FILES, v], v, pointers)
  {
    hide Recorded, FilesStored, PointersStored, LogWriter.Ok, Fragments, Encode, SnapshotEdit;
    StoredParts(c, v, pointers);
    var e := WriteSnapshot(name, pointers, v);
    manifest := new LogWriter(step);
    manifest.AddRecord(Encode(c, e));
    SnapshotRecorded(c, name, step, pointers, v, e, manifest.dest);
    snapshot := e;
  }

  class VersionSet {
    const codec: KeyCodec
    const name: Bytes                       // of the comparator
    const step: CrcStep
    var current: Version
    var nextFileNumber: nat
    var lastSequence: nat
    var logNumber: nat
    var prevLogNumber: nat
    var compactPointer: seq<Option<InternalKey>>
    var manifest: LogWriter?
    ghost var edits: seq<VersionEdit>       // the records of the manifest
    ghost var versions: seq<Version>        // the versions before and after each of them

    ghost predicate FieldsOk()
      reads this
    {
      && |name| < WORD && FilesStored(codec, current) && PointersStored(codec, compactPointer)
      && nextFileNumber < LONG && lastSequence < LONG && logNumber < LONG && prevLogNumber < LONG
    }

    ghost predicate Valid()
      reads this, manifest
    {
      && FieldsOk()
      && (manifest != null ==>
            && manifest.Ok() && manifest.step == step
            && Recorded(codec, name, step, manifest.dest, edits, versions, current, compactPointer)
            && var n := NotedBy(edits);
               && n.logNumber == Some(logNumber) && n.prevLogNumber == Some(prevLogNumber)
               && n.nextFileNumber.Some? && n.lastSequence.Some?)
    }

    constructor (codec: KeyCodec, name: Bytes, step: CrcStep)
      requires |name| < WORD
      ensures Valid() && manifest == null && current == NO_FILES
    {
      this.codec, this.name, this.step := codec, name, step;
      current, nextFileNumber, lastSequence, logNumber, prevLogNumber := NO_FILES, 2, 0, 0, 0;
      compactPointer := seq(NUM_LEVELS, _ => None);
      manifest, edits, versions := null, [], [];
      new;
      NoFilesSorted();
    }

    /** The manifest holds the edits that lead to the current version. */
    ghost predicate Logging()
      reads this, manifest
    {
      && manifest != null && manifest.Ok() && manifest.step == step
      && Recorded(codec, name, step, manifest.dest, edits, versions, current, compactPointer)
    }

    /** The edit as it is stored: missing log numbers are those in use, and the next file
        number and the last sequence number are noted. */
    function Completed(edit: VersionEdit): VersionEdit
      reads this
    {
      edit.(logNumber := Newer(Some(logNumber), edit.logNumber),
            prevLogNumber := Newer(Some(prevLogNumber), edit.prevLogNumber),
            nextFileNumber := Some(nextFileNumber),
            lastSequence := Some(lastSequence))
    }

    /** The edit can be stored, fits the current version, and adds no (level, number) again. */
    ghost predicate Fits(edit: VersionEdit)
      reads this
    {
      && PartsFit(codec, edit) && edit.comparator.None? && AddsApart(edit)
      && FreshEdit(current, ToFileEdit(edit))
      && (forall l: nat, n: nat :: Adds(edit, l, n) && l < |current| ==> NotThere(current[l], n))
      && (manifest != null ==> forall i: nat, l: nat, n: nat :: i < |edits| && Adds(edits[i], l, n) ==> !Adds(edit, l, n))
    }

    /** A new manifest starts with a snapshot of the current version. */
    method StartManifest()
      requires FieldsOk() && manifest == null
      modifies this`manifest, this`edits, this`versions
      ensures FieldsOk() && Logging() && fresh(manifest)
      ensures |edits| == 1 && IsSnapshot(edits[0], name, compactPointer, current)
    {
      hide Recorded, FilesStored, PointersStored, LogWriter.Ok, IsSnapshot;
      ghost var snapshot;
      manifest, snapshot := FirstRecord(codec, name, step, compactPointer, current);
      edits, versions := [snapshot], [NO_FILES, current];
    }

    /** Logs an edit and makes its version current. */
    method LogEdit(e: VersionEdit, v: Version)
      requires Logging() && RecordOk(codec, name, e) && AddsApart(e) && Edited(current, v, ToFileEdit(e))
      requires forall i, l, n :: 0 <= i < |edits| && Adds(edits[i], l, n) ==> !Adds(e, l, n)
      modifies this`current, this`compactPointer, this`edits, this`versions, manifest
      ensures Logging() && current == v && manifest == old(manifest)
      ensures compactPointer == NotePointers(old(compactPointer), e.compactPointers)
      ensures edits == old(edits) + [e] && NotedBy(edits) == Note(NotedBy(old(edits)), e)
    {
      hide Recorded, LogWriter.Ok, Fragments, Encode, RecordOk, AddsApart, Edited, Adds, NotedBy, Note;
      RecordedNext(codec, name, step, manifest.dest, edits, versions, current, compactPointer, e, v);
      manifest.AddRecord(Encode(codec, e));
      compactPointer := NotePointers(compactPointer, e.compactPointers);
      edits, versions, current := edits + [e], versions + [v], v;
    }

    /** LogAndApply: makes the new version, starts the manifest with a snapshot if there is
        none, and logs the edit. */
    method LogAndApply(edit: VersionEdit)
      requires Valid() && Fits(edit)
      modifies this`current, this`compactPointer, this`edits, this`versions, this`manifest, this`logNumber, this`prevLogNumber, manifest
      ensures Valid() && manifest != null && (old(manifest) != null ==> manifest == old(manifest))
      ensures old(manifest) == null ==> fresh(manifest)
      ensures Edited(old(current), current, ToFileEdit(edit))
      ensures |old(compactPointer)| == NUM_LEVELS && compactPointer == NotePointers(old(compactPointer), edit.compactPointers)
      ensures logNumber == (if edit.logNumber.Some? then edit.logNumber.value else old(logNumber))
      ensures prevLogNumber == (if edit.prevLogNumber.Some? then edit.prevLogNumber.value else old(prevLogNumber))
      ensures NotedBy(edits).nextFileNumber == Some(nextFileNumber) && NotedBy(edits).lastSequence == Some(lastSequence)
    {
      hide Recorded, LogWriter.Ok, Fragments, Encode, RecordOk, AddsApart, Edited, Adds, NotedBy, FilesStored, PointersStored,
        FreshEdit, PartsFit, NotThere, IsSnapshot;
      StoredParts(codec, current, compactPointer);
      var e := Completed(edit);
      CompletedFits(codec, name, edit, logNumber, prevLogNumber, nextFileNumber, lastSequence, e);
      assert forall l: nat, n: nat :: Adds(e, l, n) && l < |current| ==> Adds(edit, l, n) && NotThere(current[l], n);
      SortedLevels(codec, current);
      var v := ApplyEdit(current, ToFileEdit(e));
      EditedStored(codec, current, v, compactPointer, e);
      if manifest == null {
        StartManifest();
        SnapshotAdds(name, compactPointer, current, edits[0], e);
      }
      LogEdit(e, v);
      logNumber, prevLogNumber := e.logNumber.value, e.prevLogNumber.value;
    }

    /** Recover, given the manifest, rebuilds the version, the log numbers, the compaction
        pointers, and the numbers noted with the last edit. */
    method Reopen() returns (status: RecoverStatus, r: Option<Recovered>)
      requires Valid() && manifest != null
      ensures var n := NotedBy(edits);
              && status == RecoverOk && n.nextFileNumber.Some? && n.lastSequence.Some?
              && r == Some(Recovered(current, n.nextFileNumber.value, n.nextFileNumber.value + 1, n.lastSequence.value,
                                     logNumber, prevLogNumber, compactPointer))
    {
      hide LogWriter.Ok, FilesStored, PointersStored, NotedBy, LogFrom, Complete, AddedOnce, Chain, RecordsOk, Encoded;
      status, r := Recover(codec, name, step, manifest.dest, edits, versions);
      CompleteIff(step, Encoded(codec, edits), 0, |manifest.dest|, |edits|);
      assert Encoded(codec, edits)[..|edits|] == Encoded(codec, edits);
      assert edits[..|edits|] == edits;
    }
  }

  predicate IsSnapshot(e: VersionEdit, name: Bytes, pointers: seq<Option<InternalKey>>, v: Version) {
    |pointers| == |v| == NUM_LEVELS && e == SnapshotEdit(name, pointers, v)
  }

  predicate NotThere(files: seq<FileMeta>, n: nat) {
    forall f :: f in files ==> f.number != n
  }

  lemma StoredParts(c: KeyCodec, v: Version, ps: seq<Option<InternalKey>>)
    requires FilesStored(c, v) && PointersStored(c, ps)
    ensures |v| == NUM_LEVELS && |ps| == NUM_LEVELS
  {
  }

  lemma SortedLevels(c: KeyCodec, v: Version)
    requires FilesStored(c, v)
    ensures forall l :: 0 <= l < NUM_LEVELS ==> SortedFiles(v[l])
  {
  }

  /** Completing an edit changes its numbers only. */
  lemma CompletedFits(c: KeyCodec, name: Bytes, edit: VersionEdit, log: nat, prev: nat, next: nat, last: nat, e: VersionEdit)
    requires PartsFit(c, edit) && edit.comparator.None? && AddsApart(edit)
    requires e == edit.(logNumber := Newer(Some(log), edit.logNumber), prevLogNumber := Newer(Some(prev), edit.prevLogNumber),
                        nextFileNumber := Some(next), lastSequence := Some(last))
    requires log < LONG && prev < LONG && next < LONG && last < LONG
    ensures PartsFit(c, e) && RecordOk(c, name, e) && AddsApart(e) && ToFileEdit(e) == ToFileEdit(edit)
    ensures forall l: nat, n: nat :: Adds(e, l, n) <==> Adds(edit, l, n)
    ensures OrZero(e.logNumber) < LONG && OrZero(e.prevLogNumber) < LONG
  {
    PartsMakeFit(c, e);
    hide EditFits, EditOk;
  }

  /** The new version can be stored too. */
  lemma EditedStored(c: KeyCodec, v: Version, v': Version, ps: seq<Option<InternalKey>>, e: VersionEdit)
    requires FilesStored(c, v) && PointersStored(c, ps) && Edited(v, v', ToFileEdit(e)) && AddsApart(e) && PartsFit(c, e)
    requires forall l: nat, n: nat :: Adds(e, l, n) && l < |v| ==> NotThere(v[l], n)
    ensures FilesStored(c, v') && PointersStored(c, NotePointers(ps, e.compactPointers))
  {
    NotedPointersStored(c, ps, e.compactPointers);
    hide PointersStored, NotePointers, SortedFiles, FileFits, SortedPairs;
    forall l: nat, f: FileMeta, g: FileMeta | l < |v'| && f in v'[l] && g in v'[l] && f.number == g.number
      ensures f == g
    {
      assert (l, f) in e.newFiles ==> Adds(e, l, f.number);
      assert (l, g) in e.newFiles ==> Adds(e, l, g.number);
      assert (l, f).0 == (l, g).0 == l;
    }
    forall l, f | 0 <= l < NUM_LEVELS && f in v'[l]
      ensures FileFits(c, f)
    {
      if (l, f) in e.newFiles {
        var i :| 0 <= i < |e.newFiles| && e.newFiles[i] == (l, f);
      }
    }
  }

  /** The snapshot adds the files of the version and nothing else. */
  lemma SnapshotAdds(name: Bytes, pointers: seq<Option<InternalKey>>, v: Version, snapshot: VersionEdit, e: VersionEdit)
    requires IsSnapshot(snapshot, name, pointers, v)
    requires forall l: nat, n: nat :: Adds(e, l, n) && l < |v| ==> NotThere(v[l], n)
    ensures forall l: nat, n: nat :: Adds(snapshot, l, n) ==> !Adds(e, l, n)
  {
    hide AllFiles, PointersOf;
    forall l: nat, n: nat | Adds(snapshot, l, n)
      ensures !Adds(e, l, n)
    {
      var f :| (l, f) in snapshot.newFiles && f.number == n;
      AllFilesHas(v, NUM_LEVELS, (l, f));
    }
  }
}