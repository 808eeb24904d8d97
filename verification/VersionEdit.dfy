/** The stored form of a version edit (version_edit.cc) and reading it back. */
module VersionEdits {
  import opened Keys
  import opened Files
  import opened Coding

  /** How internal keys are stored as byte strings. */
  datatype KeyCodec = KeyCodec(encode: InternalKey -> Bytes, decode: Bytes -> InternalKey) {
    /** This key survives being stored. */
    predicate Stores(k: InternalKey) {
      |encode(k)| < WORD && decode(encode(k)) == k
    }
  }

  datatype VersionEdit = VersionEdit(
    comparator: Option<Bytes>,
    logNumber: Option<nat>,
    prevLogNumber: Option<nat>,
    nextFileNumber: Option<nat>,
    lastSequence: Option<nat>,
    compactPointers: seq<(nat, InternalKey)>,
    deletedFiles: seq<(nat, nat)>,              // a sorted set of (level, number)
    newFiles: seq<(nat, FileMeta)>)

  const EMPTY_EDIT := VersionEdit(None, None, None, None, None, [], [], [])

  // ------------------------------------------------------------------ the set of deleted files

  predicate PairLess(p: (nat, nat), q: (nat, nat)) {
    p.0 < q.0 || (p.0 == q.0 && p.1 < q.1)
  }

  ghost predicate SortedPairs(s: seq<(nat, nat)>) {
    forall i, j :: 0 <= i < j < |s| ==> PairLess(s[i], s[j])
  }

  /** Insertion into a std::set of pairs. */
  function InsertPair(s: seq<(nat, nat)>, p: (nat, nat)): (r: seq<(nat, nat)>)
    ensures forall q :: q in r <==> q in s || q == p
  {
    if s == [] then [p]
    else if PairLess(p, s[0]) then [p] + s
    else if p == s[0] then s
    else
      assert s == [s[0]] + s[1..];
      [s[0]] + InsertPair(s[1..], p)
  }

  /** The greatest pair goes to the end. */
  lemma {:induction false} InsertLast(s: seq<(nat, nat)>, p: (nat, nat))
    requires forall i :: 0 <= i < |s| ==> PairLess(s[i], p)
    ensures InsertPair(s, p) == s + [p]
  {
    if s != [] {
      InsertLast(s[1..], p);
      assert s + [p] == [s[0]] + (s[1..] + [p]);
    }
  }

  // ------------------------------------------------------------------ fields

  datatype Field =
    | Comparator(name: Bytes)
    | LogNumber(number: nat)
    | PrevLogNumber(number: nat)
    | NextFileNumber(number: nat)
    | LastSequence(number: nat)
    | CompactPointer(level: nat, key: InternalKey)
    | DeletedFile(level: nat, number: nat)
    | NewFile(level: nat, file: FileMeta)

  function EncodeField(c: KeyCodec, f: Field): Bytes {
    match f
    case Comparator(name) => Varint(1) + LengthPrefixed(name)
    case LogNumber(n) => Varint(2) + Varint(n)
    case NextFileNumber(n) => Varint(3) + Varint(n)
    case LastSequence(n) => Varint(4) + Varint(n)
    case CompactPointer(l, k) => Varint(5) + (Varint(l) + LengthPrefixed(c.encode(k)))
    case DeletedFile(l, n) => Varint(6) + (Varint(l) + Varint(n))
    case NewFile(l, m) =>
      Varint(7) + (Varint(l) + (Varint(m.number) + (Varint(m.size) +
                                                    (LengthPrefixed(c.encode(m.smallest)) + LengthPrefixed(c.encode(m.largest))))))
    case PrevLogNumber(n) => Varint(9) + Varint(n)
  }

  predicate FileFits(c: KeyCodec, f: FileMeta) {
    f.number < LONG && f.size < LONG && c.Stores(f.smallest) && c.Stores(f.largest)
  }

  predicate FieldFits(c: KeyCodec, f: Field) {
    match f
    case Comparator(name) => |name| < WORD
    case CompactPointer(l, k) => l < NUM_LEVELS && c.Stores(k)
    case DeletedFile(l, n) => l < NUM_LEVELS && n < LONG
    case NewFile(l, m) => l < NUM_LEVELS && FileFits(c, m)
    case _ => f.number < LONG
  }

  /** Fields are added to an edit one by one. */
  function AddField(e: VersionEdit, f: Field): VersionEdit {
    match f
    case Comparator(name) => e.(comparator := Some(name))
    case LogNumber(n) => e.(logNumber := Some(n))
    case PrevLogNumber(n) => e.(prevLogNumber := Some(n))
    case NextFileNumber(n) => e.(nextFileNumber := Some(n))
    case LastSequence(n) => e.(lastSequence := Some(n))
    case CompactPointer(l, k) => e.(compactPointers := e.compactPointers + [(l, k)])
    case DeletedFile(l, n) => e.(deletedFiles := InsertPair(e.deletedFiles, (l, n)))
    case NewFile(l, m) => e.(newFiles := e.newFiles + [(l, m)])
  }

  function AddFields(e: VersionEdit, fs: seq<Field>): VersionEdit {
    if fs == [] then e else AddField(AddFields(e, fs[..|fs| - 1]), fs[|fs| - 1])
  }

  function Single(n: Option<nat>, make: nat -> Field): seq<Field> {
    if n.Some? then [make(n.value)] else []
  }

  function Pointers(ps: seq<(nat, InternalKey)>): seq<Field> {
    seq(|ps|, i requires 0 <= i < |ps| => CompactPointer(ps[i].0, ps[i].1))
  }

  function Deletions(ds: seq<(nat, nat)>): seq<Field> {
    seq(|ds|, i requires 0 <= i < |ds| => DeletedFile(ds[i].0, ds[i].1))
  }

  function Additions(fs: seq<(nat, FileMeta)>): seq<Field> {
    seq(|fs|, i requires 0 <= i < |fs| => NewFile(fs[i].0, fs[i].1))
  }

  function Numbers(e: VersionEdit): seq<Field> {
    (if e.comparator.Some? then [Comparator(e.comparator.value)] else []) +
    Single(e.logNumber, (n: nat) => LogNumber(n)) + Single(e.prevLogNumber, (n: nat) => PrevLogNumber(n)) +
    Single(e.nextFileNumber, (n: nat) => NextFileNumber(n)) + Single(e.lastSequence, (n: nat) => LastSequence(n))
  }

  /** The fields of an edit in the order of EncodeTo. */
  function Fields(e: VersionEdit): seq<Field> {
    Numbers(e) + Pointers(e.compactPointers) + Deletions(e.deletedFiles) + Additions(e.newFiles)
  }

  function EncodeFields(c: KeyCodec, fs: seq<Field>): Bytes {
    if fs == [] then [] else EncodeFields(c, fs[..|fs| - 1]) + EncodeField(c, fs[|fs| - 1])
  }

  /** VersionEdit::EncodeTo. */
  function Encode(c: KeyCodec, e: VersionEdit): Bytes {
    EncodeFields(c, Fields(e))
  }

  // ------------------------------------------------------------------ fields make up an edit

  lemma {:induction false} AddFieldsConcat(e: VersionEdit, a: seq<Field>, b: seq<Field>)
    ensures AddFields(e, a + b) == AddFields(AddFields(e, a), b)
    decreases |b|
  {
    hide AddField;
    if b == [] {
      assert a + b == a;
    } else {
      var n := |b| - 1;
      AddFieldsConcat(e, a, b[..n]);
      assert (a + b)[..|a + b| - 1] == a + b[..n] && (a + b)[|a + b| - 1] == b[n];
    }
  }

  lemma {:induction false} AddPointers(e: VersionEdit, ps: seq<(nat, InternalKey)>)
    ensures AddFields(e, Pointers(ps)) == e.(compactPointers := e.compactPointers + ps)
  {
    if ps == [] {
      assert e.compactPointers + ps == e.compactPointers;
    } else {
      var n := |ps| - 1;
      AddPointers(e, ps[..n]);
      assert Pointers(ps)[..n] == Pointers(ps[..n]);
      assert e.compactPointers + ps == e.compactPointers + ps[..n] + [(ps[n].0, ps[n].1)];
    }
  }

  lemma {:induction false} AddDeletions(e: VersionEdit, ds: seq<(nat, nat)>)
    requires SortedPairs(ds) && e.deletedFiles == []
    ensures AddFields(e, Deletions(ds)) == e.(deletedFiles := ds)
  {
    if ds != [] {
      var n := |ds| - 1;
      AddDeletions(e, ds[..n]);
      assert Deletions(ds)[..n] == Deletions(ds[..n]);
      InsertLast(ds[..n], ds[n]);
      assert ds == ds[..n] + [(ds[n].0, ds[n].1)];
    }
  }

  lemma {:induction false} AddAdditions(e: VersionEdit, fs: seq<(nat, FileMeta)>)
    ensures AddFields(e, Additions(fs)) == e.(newFiles := e.newFiles + fs)
  {
    if fs == [] {
      assert e.newFiles + fs == e.newFiles;
    } else {
      var n := |fs| - 1;
      AddAdditions(e, fs[..n]);
      assert Additions(fs)[..n] == Additions(fs[..n]);
      assert e.newFiles + fs == e.newFiles + fs[..n] + [(fs[n].0, fs[n].1)];
    }
  }

  /** An edit is the sum of its fields. */
  lemma FieldsMakeEdit(e: VersionEdit)
    requires SortedPairs(e.deletedFiles)
    ensures AddFields(EMPTY_EDIT, Fields(e)) == e
  {
    var e1 := EMPTY_EDIT.(comparator := e.comparator, logNumber := e.logNumber, prevLogNumber := e.prevLogNumber,
                          nextFileNumber := e.nextFileNumber, lastSequence := e.lastSequence);
    NumbersMake(e);
    AddPointers(e1, e.compactPointers);
    var e2 := e1.(compactPointers := e.compactPointers);
    assert [] + e.compactPointers == e.compactPointers;
    AddDeletions(e2, e.deletedFiles);
    var e3 := e2.(deletedFiles := e.deletedFiles);
    AddAdditions(e3, e.newFiles);
    assert [] + e.newFiles == e.newFiles;
    hide AddFields, Numbers, Pointers, Deletions, Additions;
    AddFieldsConcat(EMPTY_EDIT, Numbers(e), Pointers(e.compactPointers));
    AddFieldsConcat(EMPTY_EDIT, Numbers(e) + Pointers(e.compactPointers), Deletions(e.deletedFiles));
    AddFieldsConcat(EMPTY_EDIT, Numbers(e) + Pointers(e.compactPointers) + Deletions(e.deletedFiles), Additions(e.newFiles));
  }

  lemma AddOptional(e: VersionEdit, fs: seq<Field>, present: bool, f: Field)
    ensures AddFields(e, fs + if present then [f] else []) == if present then AddField(AddFields(e, fs), f) else AddFields(e, fs)
  {
    if present {
      assert (fs + [f])[..|fs|] == fs;
    } else {
      assert fs + [] == fs;
    }
  }

  lemma NumbersMake(e: VersionEdit)
    ensures AddFields(EMPTY_EDIT, Numbers(e)) ==
            EMPTY_EDIT.(comparator := e.comparator, logNumber := e.logNumber, prevLogNumber := e.prevLogNumber,
                        nextFileNumber := e.nextFileNumber, lastSequence := e.lastSequence)
  {
    hide AddFields;
    var a: seq<Field> := if e.comparator.Some? then [Comparator(e.comparator.value)] else [];
    var b := a + Single(e.logNumber, (n: nat) => LogNumber(n));
    var c := b + Single(e.prevLogNumber, (n: nat) => PrevLogNumber(n));
    var d := c + Single(e.nextFileNumber, (n: nat) => NextFileNumber(n));
    assert [] + a == a;
    AddNothing(EMPTY_EDIT);
    AddOptional(EMPTY_EDIT, [], e.comparator.Some?, Comparator(if e.comparator.Some? then e.comparator.value else []));
    AddOptional(EMPTY_EDIT, a, e.logNumber.Some?, LogNumber(OrZero(e.logNumber)));
    AddOptional(EMPTY_EDIT, b, e.prevLogNumber.Some?, PrevLogNumber(OrZero(e.prevLogNumber)));
    AddOptional(EMPTY_EDIT, c, e.nextFileNumber.Some?, NextFileNumber(OrZero(e.nextFileNumber)));
    AddOptional(EMPTY_EDIT, d, e.lastSequence.Some?, LastSequence(OrZero(e.lastSequence)));
  }

  lemma AddNothing(e: VersionEdit)
    ensures AddFields(e, []) == e
  {
  }

  function OrZero(n: Option<nat>): nat {
    if n.Some? then n.value else 0
  }

  // ------------------------------------------------------------------ parsing

  /** The front of the input: nothing that starts with a tag, a field with what follows
      it, or a field that cannot be read. */
  datatype Parsed = NoTag | Bad(message: string) | Got(field: Field, rest: Bytes)

  function GetLevel(b: Bytes): (r: Option<(nat, Bytes)>)
    ensures r.Some? ==> |r.value.1| < |b|
  {
    var v := GetVarint32(b);
    if v.None? || v.value.0 >= NUM_LEVELS then None else v
  }

  function GetInternalKey(c: KeyCodec, b: Bytes): (r: Option<(InternalKey, Bytes)>)
    ensures r.Some? ==> |r.value.1| < |b|
  {
    var s := FromLengthPrefixed(b);
    if s.None? then None else Some((c.decode(s.value.0), s.value.1))
  }

  function ParseNumber(b: Bytes, make: nat -> Field, message: string): (r: Parsed)
    ensures r.Got? ==> |r.rest| < |b|
  {
    var n := GetVarint64(b);
    if n.None? then Bad(message) else Got(make(n.value.0), n.value.1)
  }

  function ParseNewFile(c: KeyCodec, b: Bytes): (r: Parsed)
    ensures r.Got? ==> |r.rest| < |b|
  {
    var bad := Bad("new-file entry");
    var l := GetLevel(b);
    if l.None? then bad else
    var n := GetVarint64(l.value.1);
    if n.None? then bad else
    var s := GetVarint64(n.value.1);
    if s.None? then bad else
    var k := GetInternalKey(c, s.value.1);
    if k.None? then bad else
    var m := GetInternalKey(c, k.value.1);
    if m.None? then bad else
    Got(NewFile(l.value.0, FileMeta(n.value.0, s.value.0, k.value.0, m.value.0)), m.value.1)
  }

  function ParsePointer(c: KeyCodec, b: Bytes): (r: Parsed)
    ensures r.Got? ==> |r.rest| < |b|
  {
    var l := GetLevel(b);
    if l.None? then Bad("compaction pointer") else
    var k := GetInternalKey(c, l.value.1);
    if k.None? then Bad("compaction pointer") else Got(CompactPointer(l.value.0, k.value.0), k.value.1)
  }

  function ParseDeletion(b: Bytes): (r: Parsed)
    ensures r.Got? ==> |r.rest| < |b|
  {
    var l := GetLevel(b);
    if l.None? then Bad("deleted file") else
    var n := GetVarint64(l.value.1);
    if n.None? then Bad("deleted file") else Got(DeletedFile(l.value.0, n.value.0), n.value.1)
  }

  /** The switch of DecodeFrom. */
  function ParseField(c: KeyCodec, b: Bytes): (r: Parsed)
    ensures r.Got? ==> |r.rest| < |b|
  {
    var t := GetVarint32(b);
    if t.None? then NoTag else
    var tag, rest := t.value.0, t.value.1;
    if tag == 1 then
      var s := FromLengthPrefixed(rest);
      if s.None? then Bad("comparator name") else Got(Comparator(s.value.0), s.value.1)
    else if tag == 2 then ParseNumber(rest, (n: nat) => LogNumber(n), "log number")
    else if tag == 9 then ParseNumber(rest, (n: nat) => PrevLogNumber(n), "previous log number")
    else if tag == 3 then ParseNumber(rest, (n: nat) => NextFileNumber(n), "next file number")
    else if tag == 4 then ParseNumber(rest, (n: nat) => LastSequence(n), "last sequence number")
    else if tag == 5 then ParsePointer(c, rest)
    else if tag == 6 then ParseDeletion(rest)
    else if tag == 7 then ParseNewFile(c, rest)
    else Bad("unknown tag")
  }

  lemma GetKey(c: KeyCodec, k: InternalKey, tail: Bytes)
    requires c.Stores(k)
    ensures GetInternalKey(c, LengthPrefixed(c.encode(k)) + tail) == Some((k, tail))
  {
    hide LengthPrefixed, FromLengthPrefixed;
    LengthPrefixedRoundTrip(c.encode(k), tail);
  }

  lemma ParseEncodedNewFile(c: KeyCodec, l: nat, m: FileMeta, tail: Bytes)
    requires l < NUM_LEVELS && FileFits(c, m)
    ensures ParseNewFile(c, Varint(l) + (Varint(m.number) + (Varint(m.size) +
              (LengthPrefixed(c.encode(m.smallest)) + LengthPrefixed(c.encode(m.largest))))) + tail) == Got(NewFile(l, m), tail)
  {
    hide Varint, LengthPrefixed, GetVarint32, GetVarint64, GetInternalKey;
    var a, b := LengthPrefixed(c.encode(m.smallest)), LengthPrefixed(c.encode(m.largest));
    var d := Varint(m.size) + (a + b);
    var e := Varint(m.number) + d;
    assert Varint(l) + e + tail == Varint(l) + (e + tail);
    Get32(l, e + tail);
    assert e + tail == Varint(m.number) + (d + tail);
    Get64(m.number, d + tail);
    assert d + tail == Varint(m.size) + (a + (b + tail));
    Get64(m.size, a + (b + tail));
    GetKey(c, m.smallest, b + tail);
    GetKey(c, m.largest, tail);
  }

  /** A field is read back, whatever follows it. */
  lemma ParseEncodedField(c: KeyCodec, f: Field, tail: Bytes)
    requires FieldFits(c, f)
    ensures ParseField(c, EncodeField(c, f) + tail) == Got(f, tail)
  {
    hide Varint, LengthPrefixed, FromLengthPrefixed, GetVarint32, GetVarint64, GetInternalKey, ParseNewFile;
    match f
    case Comparator(name) =>
      assert EncodeField(c, f) + tail == Varint(1) + (LengthPrefixed(name) + tail);
      Get32(1, LengthPrefixed(name) + tail);
      LengthPrefixedRoundTrip(name, tail);
    case LogNumber(n) =>
      ParseEncodedNumber(2, n, tail);
    case NextFileNumber(n) =>
      ParseEncodedNumber(3, n, tail);
    case LastSequence(n) =>
      ParseEncodedNumber(4, n, tail);
    case PrevLogNumber(n) =>
      ParseEncodedNumber(9, n, tail);
    case CompactPointer(l, k) =>
      var key := LengthPrefixed(c.encode(k));
      assert EncodeField(c, f) + tail == Varint(5) + (Varint(l) + (key + tail));
      Get32(5, Varint(l) + (key + tail));
      Get32(l, key + tail);
      GetKey(c, k, tail);
    case DeletedFile(l, n) =>
      assert EncodeField(c, f) + tail == Varint(6) + (Varint(l) + (Varint(n) + tail));
      Get32(6, Varint(l) + (Varint(n) + tail));
      Get32(l, Varint(n) + tail);
      Get64(n, tail);
    case NewFile(l, m) =>
      var body := Varint(l) + (Varint(m.number) + (Varint(m.size) +
                               (LengthPrefixed(c.encode(m.smallest)) + LengthPrefixed(c.encode(m.largest)))));
      assert EncodeField(c, f) + tail == Varint(7) + (body + tail);
      Get32(7, body + tail);
      ParseEncodedNewFile(c, l, m, tail);
  }

  lemma ParseEncodedNumber(tag: nat, n: nat, tail: Bytes)
    requires tag < WORD && n < LONG
    ensures GetVarint32(Varint(tag) + Varint(n) + tail) == Some((tag, Varint(n) + tail))
    ensures GetVarint64(Varint(n) + tail) == Some((n, tail))
  {
    hide Varint;
    assert Varint(tag) + Varint(n) + tail == Varint(tag) + (Varint(n) + tail);
    Get32(tag, Varint(n) + tail);
    Get64(n, tail);
  }

  /** All fields of the input, added to an edit; None if the input is not made of fields. */
  function ParseFields(c: KeyCodec, b: Bytes, e: VersionEdit): Option<VersionEdit>
    decreases |b|
  {
    var p := ParseField(c, b);
    match p
    case NoTag => if b == [] then Some(e) else None
    case Bad(_) => None
    case Got(f, rest) => ParseFields(c, rest, AddField(e, f))
  }

  lemma {:induction false} ParseEncodedFields(c: KeyCodec, fs: seq<Field>, tail: Bytes, e: VersionEdit)
    requires forall i :: 0 <= i < |fs| ==> FieldFits(c, fs[i])
    ensures ParseFields(c, EncodeFields(c, fs) + tail, e) == ParseFields(c, tail, AddFields(e, fs))
    decreases |fs|
  {
    hide ParseField, EncodeField, FieldFits, AddField;
    if fs == [] {
      assert [] + tail == tail;
    } else {
      var n := |fs| - 1;
      var last := EncodeField(c, fs[n]) + tail;
      ParseEncodedFields(c, fs[..n], last, e);
      ParseEncodedField(c, fs[n], tail);
      assert EncodeFields(c, fs) + tail == EncodeFields(c, fs[..n]) + last;
    }
  }

  /** What EncodeTo can store. */
  ghost predicate EditFits(c: KeyCodec, e: VersionEdit) {
    SortedPairs(e.deletedFiles) && forall i :: 0 <= i < |Fields(e)| ==> FieldFits(c, Fields(e)[i])
  }

  /** Decoding into a fresh edit undoes encoding. */
  lemma EditRoundTrip(c: KeyCodec, e: VersionEdit)
    requires EditFits(c, e)
    ensures ParseFields(c, Encode(c, e), EMPTY_EDIT) == Some(e)
  {
    hide EncodeFields, AddFields, ParseField, Fields, FieldFits;
    ParseEncodedFields(c, Fields(e), [], EMPTY_EDIT);
    assert EncodeFields(c, Fields(e)) + [] == EncodeFields(c, Fields(e));
    FieldsMakeEdit(e);
    NoField(c);
  }

  lemma NoField(c: KeyCodec)
    ensures ParseField(c, []) == NoTag
  {
  }

  /** VersionEdit::DecodeFrom into a fresh edit. */
  method DecodeFrom(c: KeyCodec, src: Bytes) returns (r: Option<VersionEdit>)
    ensures r == ParseFields(c, src, EMPTY_EDIT)
  {
    hide ParseField, AddField;
    var input, edit := src, EMPTY_EDIT;
    while true
      invariant ParseFields(c, src, EMPTY_EDIT) == ParseFields(c, input, edit)
      decreases |input|
    {
      var p := ParseField(c, input);
      match p
      case NoTag =>
        return if input == [] then Some(edit) else None;
      case Bad(_) =>
        return None;
      case Got(f, rest) =>
        edit, input := AddField(edit, f), rest;
    }
  }
}
