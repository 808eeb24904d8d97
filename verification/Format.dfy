/** The format by itself: records of a field number and a payload, of which the wire type
    alone tells the length.  What a sequence of records decodes to, whoever wrote it. */
module Formats {
  import opened Keys
  import opened Coding
  import opened Messages
  import opened Decoders
  import opened Wire

  // ------------------------------------------------------------------ records

  /** What may follow a tag: bytes of which only the last has no top bit, eight bytes, a
      length and as many bytes, or four bytes. */
  datatype Payload = Digits(b: Bytes) | Eight(b: Bytes) | Delimited(b: Bytes) | Four(b: Bytes)

  predicate PayloadOk(p: Payload) {
    match p
    case Digits(b) => IsVarint(b)
    case Eight(b) => |b| == 8
    case Delimited(b) => |b| < WORD
    case Four(b) => |b| == 4
  }

  predicate IsVarint(b: Bytes) {
    b != [] && b[|b| - 1] < 128 && forall i :: 0 <= i < |b| - 1 ==> b[i] >= 128
  }

  function PayloadNumber(p: Payload): (w: nat)
    ensures w < 8
  {
    match p
    case Digits(_) => 0
    case Eight(_) => 1
    case Delimited(_) => 2
    case Four(_) => 5
  }

  function PayloadBytes(p: Payload): Bytes {
    if p.Delimited? then Varint(|p.b|) + p.b else p.b
  }

  datatype Record = Record(number: nat, payload: Payload)

  predicate RecordOk(r: Record) {
    0 < r.number < 0x2000_0000 && PayloadOk(r.payload)
  }

  function RecordBytes(r: Record): Bytes {
    Varint(8 * r.number + PayloadNumber(r.payload)) + PayloadBytes(r.payload)
  }

  predicate RecordsOk(rs: seq<Record>) {
    forall i :: 0 <= i < |rs| ==> RecordOk(rs[i])
  }

  function Written(rs: seq<Record>): Bytes {
    if rs == [] then [] else RecordBytes(rs[0]) + Written(rs[1..])
  }

  lemma {:induction false} WrittenBoth(a: seq<Record>, b: seq<Record>)
    ensures Written(a + b) == Written(a) + Written(b)
  {
    hide Written;
    WrittenNone();
    if a == [] {
      assert [] + b == b;
    } else {
      WrittenBoth(a[1..], b);
      WrittenMore(a);
      WrittenMore(a + b);
      assert (a + b)[1..] == a[1..] + b;
    }
  }

  lemma WrittenNone()
    ensures Written([]) == []
  {
  }

  lemma WrittenMore(rs: seq<Record>)
    requires rs != []
    ensures Written(rs) == RecordBytes(rs[0]) + Written(rs[1..])
  {
  }

  // ------------------------------------------------------------------ reading a payload

  /** Reading stops where the payload ends: what follows has no part in it. */
  lemma {:induction false} SkipVarintEnds(b: Bytes, rest: Bytes)
    requires IsVarint(b)
    ensures SkipVarint(b + rest) == Some(rest)
    decreases |b|
  {
    assert (b + rest)[0] == b[0] && (b + rest)[1..] == b[1..] + rest;
    if b[0] >= 128 {
      SkipVarintEnds(b[1..], rest);
    } else {
      assert b[1..] == [];
    }
  }

  /** A number and nothing, then the same number and what follows. */
  ghost predicate Local<T(!new)>(alone: Option<(T, Bytes)>, followed: Option<(T, Bytes)>, rest: Bytes) {
    if alone.None? then followed.None? else alone.value.1 == [] && followed == Some((alone.value.0, rest))
  }

  lemma VarintTail(b: Bytes, rest: Bytes)
    requires IsVarint(b)
    ensures (b + rest)[0] == b[0] && (b + rest)[1..] == b[1..] + rest
    ensures if b[0] >= 128 then IsVarint(b[1..]) else b[1..] == []
  {
  }

  lemma {:induction false} More32Local(b: Bytes, result: nat, bitpos: nat, rest: Bytes)
    requires IsVarint(b)
    ensures Local(More32(b, result, bitpos), More32(b + rest, result, bitpos), rest)
    decreases |b|
  {
    hide IsVarint, BitOr, Pow2, Overflows;
    VarintTail(b, rest);
    assert b != [] by { VarintNotEmpty(b); }
    if b[0] >= 128 {
      var result' := if bitpos >= 32 then result else BitOr(result, ((b[0] % 128) * Pow2(bitpos)) % WORD);
      More32Local(b[1..], result', (bitpos + 7) % 256, rest);
    } else {
      assert b[1..] + rest == rest;
    }
  }

  lemma VarintNotEmpty(b: Bytes)
    requires IsVarint(b)
    ensures b != []
  {
  }

  lemma Varint32Local(b: Bytes, rest: Bytes)
    requires IsVarint(b)
    ensures Local(Varint32(b), Varint32(b + rest), rest)
  {
    hide More32;
    VarintTail(b, rest);
    if b[0] >= 128 {
      More32Local(b[1..], b[0] % 128, 7, rest);
    } else {
      assert b[1..] + rest == rest;
    }
  }

  lemma {:induction false} FromVarintLocal(b: Bytes, most: nat, rest: Bytes)
    requires IsVarint(b)
    ensures var v := FromVarint(b, most);
            FromVarint(b + rest, most) == v && (v.Some? ==> v.value.1 == |b|)
    decreases most
  {
    hide IsVarint;
    VarintTail(b, rest);
    VarintNotEmpty(b);
    if most > 0 && b[0] >= 128 {
      FromVarintLocal(b[1..], most - 1, rest);
    }
  }

  lemma Varint64Local(b: Bytes, rest: Bytes)
    requires IsVarint(b)
    ensures Local(Varint64(b), Varint64(b + rest), rest)
  {
    hide FromVarint, IsVarint;
    FromVarintLocal(b, 10, rest);
    assert (b + rest)[|b|..] == rest;
  }

  /** A payload is passed over by its wire type, whatever it is and whatever follows it. */
  lemma PayloadSkipped(p: Payload, rest: Bytes)
    requires PayloadOk(p)
    ensures SkipField(PayloadNumber(p), PayloadBytes(p) + rest) == Some(rest)
  {
    hide Varint, Varint32, SkipVarint, Take, Sub;
    match p
    case Digits(b) => SkipVarintEnds(b, rest);
    case Eight(b) => TakeBack(b, rest);
    case Delimited(b) => LengthBack(b, rest);
    case Four(b) => TakeBack(b, rest);
  }

  // ------------------------------------------------------------------ unknown fields

  predicate Known(d: Descriptor, number: nat) {
    exists i :: 0 <= i < |d.fields| && d.fields[i].tag == number
  }

  /** A record with a number that the message type does not have makes no difference. */
  lemma UnknownSkipped(d: Descriptor, slots: seq<Slot>, seen: set<nat>, r: Record, rest: Bytes)
    requires ShapedMessage(d, slots) && RecordOk(r) && !Known(d, r.number)
    ensures DecodeFields(d, slots, seen, RecordBytes(r) + rest) == DecodeFields(d, slots, seen, rest)
  {
    hide ShapedMessage, AllSeen, Varint, Varint32, SkipField, DecodeField, PayloadBytes, PayloadOk;
    TagThen(r, rest);
    PayloadSkipped(r.payload, rest);
    UnknownNotFound(d, r.number);
  }

  /** The tag of a record is read first. */
  lemma TagThen(r: Record, rest: Bytes)
    requires RecordOk(r)
    ensures RecordBytes(r) + rest != []
    ensures var n := 8 * r.number + PayloadNumber(r.payload);
            && Varint32(RecordBytes(r) + rest) == Some((n, PayloadBytes(r.payload) + rest))
            && n != 0 && n / 8 == r.number && n % 8 == PayloadNumber(r.payload)
  {
    hide Varint, Varint32, PayloadBytes, PayloadOk;
    var n := 8 * r.number + PayloadNumber(r.payload);
    Varint32Reads(n, PayloadBytes(r.payload) + rest);
    assert RecordBytes(r) + rest == Varint(n) + (PayloadBytes(r.payload) + rest);
  }

  lemma UnknownNotFound(d: Descriptor, number: nat)
    ensures !Known(d, number) <==> Find(d, number, 0).None?
  {
  }

  // ------------------------------------------------------------------ fields

  /** The payload has the wire type of the field, or is an array of numbers in one piece. */
  predicate Matches(f: Field, p: Payload) {
    || PayloadNumber(p) == WireType(f.ltype)
    || (f.htype.Repeated? && Packable(f.ltype) && p.Delimited?)
  }

  lemma TakeLocal(b: Bytes, rest: Bytes)
    ensures Take(b, |b|) == Some((b, [])) && Take(b + rest, |b|) == Some((b, rest))
  {
    TakeBack(b, rest);
    assert b[..|b|] == b && b[|b|..] == [];
  }

  lemma LengthLocal(b: Bytes, rest: Bytes)
    requires |b| < WORD
    ensures Varint32(PayloadBytes(Delimited(b))) == Some((|b|, b))
    ensures Varint32(PayloadBytes(Delimited(b)) + rest) == Some((|b|, b + rest))
    ensures Sub(PayloadBytes(Delimited(b))) == Some((b, [])) && Sub(PayloadBytes(Delimited(b)) + rest) == Some((b, rest))
  {
    hide Varint, Varint32, Take;
    LengthBack(b, rest);
    LengthBack(b, []);
    TakeLocal(b, rest);
    assert PayloadBytes(Delimited(b)) + [] == PayloadBytes(Delimited(b)) && b + [] == b;
  }

  /** A value takes its payload and nothing of what follows. */
  lemma ValueLocal(l: LType, base: Datum, p: Payload, rest: Bytes)
    requires PayloadOk(p) && PayloadNumber(p) == WireType(l) && Shaped(l, base)
    ensures Local(DecodeValue(l, base, PayloadBytes(p)), DecodeValue(l, base, PayloadBytes(p) + rest), rest)
  {
    match p
    case Digits(b) => NumberLocal(l, base, b, rest);
    case Eight(b) => TakeLocal(b, rest);
    case Four(b) => TakeLocal(b, rest);
    case Delimited(b) =>
      LengthLocal(b, rest);
      BlobLocal(l, base, b, rest);
  }

  lemma NumberLocal(l: LType, base: Datum, b: Bytes, rest: Bytes)
    requires IsVarint(b) && WireType(l) == WT_VARINT && Shaped(l, base)
    ensures Local(DecodeValue(l, base, b), DecodeValue(l, base, b + rest), rest)
  {
    hide Varint32, Varint64, IsVarint, Signed, UnZigZag, InSigned;
    Varint32Local(b, rest);
    Varint64Local(b, rest);
  }

  lemma BlobLocal(l: LType, base: Datum, b: Bytes, rest: Bytes)
    requires |b| < WORD && WireType(l) == WT_STRING && Shaped(l, base)
    requires var e := PayloadBytes(Delimited(b));
             && Varint32(e) == Some((|b|, b)) && Varint32(e + rest) == Some((|b|, b + rest))
             && Sub(e) == Some((b, [])) && Sub(e + rest) == Some((b, rest))
    ensures Local(DecodeValue(l, base, PayloadBytes(Delimited(b))), DecodeValue(l, base, PayloadBytes(Delimited(b)) + rest), rest)
  {
    hide Varint32, Sub, PayloadBytes, DecodeFields, Take;
    TakeLocal(b, rest);
    assert |b| == 0 ==> b + rest == rest && b == [];
  }

  /** So does a field. */
  lemma FieldLocal(d: Descriptor, slots: seq<Slot>, i: nat, p: Payload, rest: Bytes)
    requires ShapedMessage(d, slots) && i < |slots| && i < |d.fields| && PayloadOk(p) && Matches(d.fields[i], p)
    ensures Local(DecodeField(d, slots, i, PayloadNumber(p), PayloadBytes(p)),
                  DecodeField(d, slots, i, PayloadNumber(p), PayloadBytes(p) + rest), rest)
  {
    hide DecodeValue, DecodePacked, DefaultValue, Choose, PayloadBytes, PayloadOk, Sub;
    var f, s := d.fields[i], slots[i];
    assert ShapedSlot(f, s);
    DefaultValueShaped(f);
    if f.htype.Repeated? && PayloadNumber(p) == WT_STRING && Packable(f.ltype) {
      DelimitedOk(p);
      LengthLocal(p.b, rest);
    } else {
      ValueLocal(f.ltype, Start(f, s), p, rest);
    }
  }

  lemma DelimitedOk(p: Payload)
    requires PayloadOk(p) && PayloadNumber(p) == WT_STRING
    ensures p.Delimited? && |p.b| < WORD
  {
  }

  /** What a value of the field starts from. */
  function Start(f: Field, s: Slot): Datum {
    if f.htype.Required? && s.One? then s.v
    else if f.htype.Optional? && s.Maybe? && s.o.Some? then s.o.value
    else DefaultValue(f)
  }

  // ------------------------------------------------------------------ what records decode to

  /** The records with a number of the message type have payloads that match. */
  predicate AllMatch(d: Descriptor, rs: seq<Record>) {
    forall k, i :: 0 <= k < |rs| && 0 <= i < |d.fields| && d.fields[i].tag == rs[k].number ==> Matches(d.fields[i], rs[k].payload)
  }

  /** What one record makes of a message; none if its payload is no value of the field. */
  function Apply(d: Descriptor, slots: seq<Slot>, r: Record): (s: Option<seq<Slot>>)
    requires ShapedMessage(d, slots)
    ensures s.Some? ==> ShapedMessage(d, s.value)
  {
    var i := Find(d, r.number, 0);
    if i.None? then Some(slots) else
    var v := DecodeField(d, slots, i.value, PayloadNumber(r.payload), PayloadBytes(r.payload));
    if v.None? then None else Some(v.value.0)
  }

  function ApplyAll(d: Descriptor, slots: seq<Slot>, rs: seq<Record>): (s: Option<seq<Slot>>)
    requires ShapedMessage(d, slots)
    ensures s.Some? ==> ShapedMessage(d, s.value)
    decreases |rs|
  {
    if rs == [] then Some(slots) else
    var s := Apply(d, slots, rs[0]);
    if s.None? then None else ApplyAll(d, s.value, rs[1..])
  }

  /** Every required field that is kept track of has a record, or was seen before. */
  ghost predicate Complete(d: Descriptor, seen: set<nat>, rs: seq<Record>) {
    forall i :: 0 <= i < |d.fields| && Tracked(d, i) ==>
      RequiredBefore(d, i) in seen || exists k :: 0 <= k < |rs| && rs[k].number == d.fields[i].tag
  }

  predicate Tracked(d: Descriptor, i: nat)
    requires i < |d.fields|
  {
    d.fields[i].htype.Required? && RequiredBefore(d, i) < MAX_REQUIRED_FIELDS
  }

  /** The first record, and the rest. */
  lemma RecordFirst(d: Descriptor, slots: seq<Slot>, seen: set<nat>, r: Record, rest: Bytes)
    requires ShapedMessage(d, slots) && RecordOk(r) && AllMatch(d, [r])
    ensures var s, i := Apply(d, slots, r), Find(d, r.number, 0);
            DecodeFields(d, slots, seen, RecordBytes(r) + rest) ==
            if s.None? then None
            else DecodeFields(d, s.value, if i.Some? then See(d, i.value, seen) else seen, rest)
  {
    hide ShapedMessage, AllSeen, Varint, Varint32, SkipField, DecodeField, PayloadBytes, PayloadOk, Matches, RecordBytes;
    if Known(d, r.number) {
      UnknownNotFound(d, r.number);
      TagThen(r, rest);
      ShapedLength(d, slots);
      var i := Find(d, r.number, 0).value;
      assert d.fields[i].tag == [r][0].number;
      FieldLocal(d, slots, i, r.payload, rest);
    } else {
      UnknownNotFound(d, r.number);
      UnknownSkipped(d, slots, seen, r, rest);
    }
  }

  lemma {:induction false} RequiredGrows(d: Descriptor, m: nat, n: nat)
    requires m <= n <= |d.fields|
    ensures RequiredBefore(d, m) <= RequiredBefore(d, n)
    ensures m < n && d.fields[m].htype.Required? ==> RequiredBefore(d, m) < RequiredBefore(d, n)
    decreases n
  {
    if m < n {
      RequiredGrows(d, m, n - 1);
    }
  }

  /** The k-th required field. */
  lemma {:induction false} RequiredAt(d: Descriptor, n: nat, k: nat) returns (i: nat)
    requires n <= |d.fields| && k < RequiredBefore(d, n)
    ensures i < n && d.fields[i].htype.Required? && RequiredBefore(d, i) == k
  {
    i := n - 1;
    if k < RequiredBefore(d, n - 1) {
      i := RequiredAt(d, n - 1, k);
    }
  }

  lemma NumbersDiffer(d: Descriptor, i: nat, j: nat)
    requires i < |d.fields| && j < |d.fields| && d.fields[i].htype.Required? && d.fields[j].htype.Required?
    ensures RequiredBefore(d, i) == RequiredBefore(d, j) <==> i == j
  {
    if i < j {
      RequiredGrows(d, i, j);
    } else if j < i {
      RequiredGrows(d, j, i);
    }
  }

  /** All seen: each field that is tracked. */
  lemma AllSeenIs(d: Descriptor, seen: set<nat>)
    ensures AllSeen(d, seen) <==> Complete(d, seen, [])
  {
    forall i | 0 <= i < |d.fields| && Tracked(d, i)
      ensures RequiredBefore(d, i) < RequiredBefore(d, |d.fields|)
    {
      RequiredGrows(d, i, |d.fields|);
    }
    forall k | 0 <= k < RequiredBefore(d, |d.fields|) && k < MAX_REQUIRED_FIELDS
      ensures Complete(d, seen, []) ==> k in seen
    {
      var i := RequiredAt(d, |d.fields|, k);
      assert Tracked(d, i);
    }
  }

  lemma TagsDiffer(d: Descriptor, i: nat, j: nat)
    requires TagsOk(d) && i < |d.fields| && j < |d.fields|
    ensures d.fields[i].tag == d.fields[j].tag <==> i == j
  {
  }

  /** A record counts for its field. */
  lemma CompleteNext(d: Descriptor, seen: set<nat>, rs: seq<Record>)
    requires TagsOk(d) && rs != []
    ensures var i := Find(d, rs[0].number, 0);
            Complete(d, if i.Some? then See(d, i.value, seen) else seen, rs[1..]) <==> Complete(d, seen, rs)
  {
    hide TagsOk, RequiredBefore, Find;
    var i := Find(d, rs[0].number, 0);
    var seen' := if i.Some? then See(d, i.value, seen) else seen;
    forall j | 0 <= j < |d.fields| && Tracked(d, j)
      ensures (RequiredBefore(d, j) in seen' || exists k :: 0 <= k < |rs[1..]| && rs[1..][k].number == d.fields[j].tag) <==>
              (RequiredBefore(d, j) in seen || exists k :: 0 <= k < |rs| && rs[k].number == d.fields[j].tag)
    {
      if i.Some? {
        TagsDiffer(d, i.value, j);
        if d.fields[i.value].htype.Required? {
          NumbersDiffer(d, i.value, j);
        }
      }
      AnyOf(rs, d.fields[j].tag);
    }
  }

  lemma AnyOf(rs: seq<Record>, number: nat)
    requires rs != []
    ensures (exists k :: 0 <= k < |rs| && rs[k].number == number) <==>
            rs[0].number == number || exists k :: 0 <= k < |rs[1..]| && rs[1..][k].number == number
  {
    if k :| 0 <= k < |rs| && rs[k].number == number {
      assert k == 0 || rs[1..][k - 1].number == number;
    }
  }

  /** Records, in whatever order, decode to what they make of the message one after the
      other, if no required field is missing among them. */
  lemma {:induction false} RecordsDecode(d: Descriptor, slots: seq<Slot>, seen: set<nat>, rs: seq<Record>)
    requires TagsOk(d) && ShapedMessage(d, slots) && RecordsOk(rs) && AllMatch(d, rs)
    ensures DecodeFields(d, slots, seen, Written(rs)) == if Complete(d, seen, rs) then ApplyAll(d, slots, rs) else None
    decreases |rs|
  {
    hide ShapedMessage, TagsOk, RecordOk, RecordBytes, Apply, AllSeen, Complete, See, Find, Matches;
    if rs == [] {
      AllSeenIs(d, seen);
    } else {
      assert [rs[0]][0] == rs[0];
      RecordFirst(d, slots, seen, rs[0], Written(rs[1..]));
      CompleteNext(d, seen, rs);
      var s, i := Apply(d, slots, rs[0]), Find(d, rs[0].number, 0);
      if s.Some? {
        RecordsDecode(d, s.value, if i.Some? then See(d, i.value, seen) else seen, rs[1..]);
      }
    }
  }

  /** What a whole message decodes to. */
  lemma MessageDecodes(d: Descriptor, rs: seq<Record>)
    requires TagsOk(d) && RecordsOk(rs) && AllMatch(d, rs)
    ensures ShapedMessage(d, Default(d))
    ensures Decode(d, Written(rs)) == if Complete(d, {}, rs) then ApplyAll(d, Default(d), rs) else None
  {
    hide DecodeFields, ApplyAll, Complete, TagsOk, RecordsOk, AllMatch;
    DefaultShaped(d);
    RecordsDecode(d, Default(d), {}, rs);
  }

  /** Without a record for some required field, a message is not decoded. */
  lemma MissingRequired(d: Descriptor, rs: seq<Record>, i: nat)
    requires TagsOk(d) && RecordsOk(rs) && AllMatch(d, rs) && i < |d.fields|
    requires d.fields[i].htype.Required? && RequiredBefore(d, i) < MAX_REQUIRED_FIELDS
    requires forall k :: 0 <= k < |rs| ==> rs[k].number != d.fields[i].tag
    ensures Decode(d, Written(rs)) == None
  {
    hide DecodeFields, ApplyAll, TagsOk, RecordsOk, AllMatch;
    MessageDecodes(d, rs);
    assert Tracked(d, i);
  }

  // ------------------------------------------------------------------ unknown fields anywhere

  /** The records with numbers of the message type. */
  function OnlyKnown(d: Descriptor, rs: seq<Record>): (r: seq<Record>)
    ensures |r| <= |rs|
  {
    if rs == [] then []
    else if Find(d, rs[0].number, 0).Some? then [rs[0]] + OnlyKnown(d, rs[1..]) else OnlyKnown(d, rs[1..])
  }

  lemma {:induction false} OnlyKnownParts(d: Descriptor, rs: seq<Record>)
    ensures RecordsOk(rs) ==> RecordsOk(OnlyKnown(d, rs))
    ensures AllMatch(d, rs) ==> AllMatch(d, OnlyKnown(d, rs))
    ensures forall r :: r in OnlyKnown(d, rs) <==> r in rs && Known(d, r.number)
  {
    hide RecordOk, Matches;
    if rs != [] {
      UnknownNotFound(d, rs[0].number);
      OnlyKnownParts(d, rs[1..]);
      assert rs == [rs[0]] + rs[1..];
      assert RecordsOk(rs) ==> RecordsOk(rs[1..]);
      assert AllMatch(d, rs) ==> AllMatch(d, rs[1..]) by {
        assert forall k :: 0 <= k < |rs[1..]| ==> rs[1..][k] == rs[k + 1];
      }
      var o := OnlyKnown(d, rs);
      assert forall k :: 0 <= k < |o| ==> o[k] == rs[0] || o[k] in OnlyKnown(d, rs[1..]);
    }
  }

  lemma {:induction false} OnlyKnownApplies(d: Descriptor, slots: seq<Slot>, rs: seq<Record>)
    requires ShapedMessage(d, slots)
    ensures ApplyAll(d, slots, OnlyKnown(d, rs)) == ApplyAll(d, slots, rs)
    decreases |rs|
  {
    hide ShapedMessage, DecodeField, PayloadBytes;
    if rs != [] {
      var s := Apply(d, slots, rs[0]);
      if Find(d, rs[0].number, 0).Some? {
        assert ([rs[0]] + OnlyKnown(d, rs[1..]))[1..] == OnlyKnown(d, rs[1..]);
      }
      if s.Some? {
        OnlyKnownApplies(d, s.value, rs[1..]);
      }
    }
  }

  lemma OnlyKnownComplete(d: Descriptor, rs: seq<Record>)
    ensures Complete(d, {}, OnlyKnown(d, rs)) <==> Complete(d, {}, rs)
  {
    OnlyKnownParts(d, rs);
    hide OnlyKnown, Tracked, AllMatch, RecordsOk;
    var o := OnlyKnown(d, rs);
    forall i | 0 <= i < |d.fields|
      ensures (exists k :: 0 <= k < |o| && o[k].number == d.fields[i].tag) <==>
              (exists k :: 0 <= k < |rs| && rs[k].number == d.fields[i].tag)
    {
      if k :| 0 <= k < |rs| && rs[k].number == d.fields[i].tag {
        assert rs[k] in o;
      }
      if k :| 0 <= k < |o| && o[k].number == d.fields[i].tag {
        assert o[k] in rs;
      }
    }
  }

  /** A message decodes as it does without the records the message type does not know,
      wherever they stand. */
  lemma UnknownIgnored(d: Descriptor, rs: seq<Record>)
    requires TagsOk(d) && RecordsOk(rs) && AllMatch(d, rs)
    ensures Decode(d, Written(rs)) == Decode(d, Written(OnlyKnown(d, rs)))
  {
    OnlyKnownParts(d, rs);
    hide DecodeFields, ApplyAll, Complete, TagsOk, RecordsOk, AllMatch, OnlyKnown;
    MessageDecodes(d, rs);
    MessageDecodes(d, OnlyKnown(d, rs));
    OnlyKnownApplies(d, Default(d), rs);
    OnlyKnownComplete(d, rs);
  }

  // ------------------------------------------------------------------ one record

  /** What a field becomes by a payload, as if it were the only one. */
  function NewSlot(f: Field, s: Slot, p: Payload): (r: Option<Slot>)
    requires ShapedSlot(f, s)
  {
    var v := DecodeField(Descriptor([f]), [s], 0, PayloadNumber(p), PayloadBytes(p));
    if v.None? then None else Some(v.value.0[0])
  }

  /** The field has changed; a member of a union takes the place of the others. */
  function Changed(d: Descriptor, slots: seq<Slot>, i: nat, s: Slot): (r: seq<Slot>)
    requires |slots| == |d.fields| && i < |slots|
    ensures |r| == |slots|
  {
    seq(|slots|, j requires 0 <= j < |slots| =>
      if j == i then s else if SameUnion(d.fields[i], d.fields[j]) then Maybe(None) else slots[j])
  }

  /** A record acts on its own field only, and on the other members of its union. */
  lemma ApplyIs(d: Descriptor, slots: seq<Slot>, i: nat, p: Payload)
    requires TagsOk(d) && ShapedMessage(d, slots) && |slots| == |d.fields| && i < |slots|
    ensures ShapedSlot(d.fields[i], slots[i])
    ensures var s := NewSlot(d.fields[i], slots[i], p);
            Apply(d, slots, Record(d.fields[i].tag, p)) == if s.None? then None else Some(Changed(d, slots, i, s.value))
  {
    hide DecodeValue, DecodePacked, DefaultValue, PayloadBytes, Shaped, TagsOk;
    FindIs(d, i, 0);
    var f := d.fields[i];
    assert ShapedSlot(f, slots[i]);
    DefaultValueShaped(f);
    assert ShapedMessage(Descriptor([f]), [slots[i]]);
    var whole := DecodeField(d, slots, i, PayloadNumber(p), PayloadBytes(p));
    var alone := DecodeField(Descriptor([f]), [slots[i]], 0, PayloadNumber(p), PayloadBytes(p));
    if whole.Some? {
      assert whole.value.0 == Changed(d, slots, i, alone.value.0[0]);
    }
  }

  lemma ShapedAt(d: Descriptor, slots: seq<Slot>, i: nat)
    requires ShapedMessage(d, slots) && i < |d.fields|
    ensures |slots| == |d.fields| && ShapedSlot(d.fields[i], slots[i])
  {
  }

  lemma TwoApplied(d: Descriptor, slots: seq<Slot>, a: Record, b: Record)
    requires ShapedMessage(d, slots)
    ensures var s := Apply(d, slots, a);
            ApplyAll(d, slots, [a, b]) == if s.None? then None else Apply(d, s.value, b)
  {
    hide Apply, ShapedMessage;
    var s := Apply(d, slots, a);
    assert [a, b][1..] == [b] && [b][1..] == [];
    if s.Some? {
      var t := Apply(d, s.value, b);
      assert ApplyAll(d, s.value, [b]) == if t.None? then None else ApplyAll(d, t.value, []);
    }
  }

  /** Two records for different fields, of which neither replaces the other. */
  lemma TwoRecords(d: Descriptor, slots: seq<Slot>, i: nat, p: Payload, j: nat, q: Payload)
    requires TagsOk(d) && ShapedMessage(d, slots) && i < |d.fields| && j < |d.fields| && i != j
    requires !SameUnion(d.fields[i], d.fields[j])
    ensures |slots| == |d.fields| && ShapedSlot(d.fields[i], slots[i]) && ShapedSlot(d.fields[j], slots[j])
    ensures var s, t := NewSlot(d.fields[i], slots[i], p), NewSlot(d.fields[j], slots[j], q);
            ApplyAll(d, slots, [Record(d.fields[i].tag, p), Record(d.fields[j].tag, q)]) ==
            if s.None? || t.None? then None else Some(Changed(d, Changed(d, slots, i, s.value), j, t.value))
  {
    hide ShapedMessage, ShapedSlot, TagsOk, Apply, ApplyAll, NewSlot;
    ShapedAt(d, slots, i);
    ShapedAt(d, slots, j);
    ApplyIs(d, slots, i, p);
    TwoApplied(d, slots, Record(d.fields[i].tag, p), Record(d.fields[j].tag, q));
    var s := Apply(d, slots, Record(d.fields[i].tag, p));
    if s.Some? {
      ApplyIs(d, s.value, j, q);
    }
  }

  lemma ChangesCommute(d: Descriptor, slots: seq<Slot>, i: nat, s: Slot, j: nat, t: Slot)
    requires |slots| == |d.fields| && i < |slots| && j < |slots| && i != j && !SameUnion(d.fields[i], d.fields[j])
    ensures Changed(d, Changed(d, slots, i, s), j, t) == Changed(d, Changed(d, slots, j, t), i, s)
  {
  }

  /** Records of different fields may change places, unless both belong to one union. */
  lemma OrderDoesNotMatter(d: Descriptor, slots: seq<Slot>, i: nat, p: Payload, j: nat, q: Payload)
    requires TagsOk(d) && ShapedMessage(d, slots) && i < |d.fields| && j < |d.fields| && i != j
    requires !SameUnion(d.fields[i], d.fields[j])
    ensures ApplyAll(d, slots, [Record(d.fields[i].tag, p), Record(d.fields[j].tag, q)]) ==
            ApplyAll(d, slots, [Record(d.fields[j].tag, q), Record(d.fields[i].tag, p)])
  {
    hide ShapedMessage, ShapedSlot, TagsOk, ApplyAll, NewSlot, Changed;
    TwoRecords(d, slots, i, p, j, q);
    TwoRecords(d, slots, j, q, i, p);
    var s, t := NewSlot(d.fields[i], slots[i], p), NewSlot(d.fields[j], slots[j], q);
    if s.Some? && t.Some? {
      ChangesCommute(d, slots, i, s.value, j, t.value);
    }
  }

  // ------------------------------------------------------------------ what the encoder writes

  lemma {:induction false} VarintIsOne(v: nat)
    ensures IsVarint(Varint(v))
  {
    if v >= 128 {
      VarintIsOne(v / 128);
      var b := Varint(v);
      assert b[1..] == Varint(v / 128);
      assert forall i :: 1 <= i < |b| ==> b[i] == b[1..][i - 1];
    }
  }

  /** The number that stands in a varint for a value: small for small ones of either sign in
      a signed field, and counted from 2^64 down for negative ones in a plain field. */
  lemma NumbersAre(l: LType, v: Datum)
    requires Typed(l, v) && Packable(l) && !l.Fixed32Type? && !l.Fixed64Type?
    ensures EncodeValue(l, v) ==
              Some(Varint(if l.SVarintType? then (if v.n < 0 then -2 * v.n - 1 else 2 * v.n)
                          else if v.n < 0 then 0x1_0000_0000_0000_0000 + v.n else v.n))
  {
    hide Varint;
  }

  /** The payload of a value. */
  function PayloadOf(l: LType, v: Datum): Payload
    requires Typed(l, v) && EncodeValue(l, v).Some?
  {
    match l
    case BoolType | VarintType(_) | UVarintType(_) | SVarintType(_) => Digits(EncodeValue(l, v).value)
    case Fixed32Type => Four(EncodeValue(l, v).value)
    case Fixed64Type => Eight(EncodeValue(l, v).value)
    case BytesType(_) | StringType(_) | FixedBytesType(_) => Delimited(v.b)
    case MessageType(d) => Delimited(EncodeFields(d, v.slots, 0).value)
  }

  /** An encoded value is a payload of its wire type. */
  lemma ValueIsPayload(l: LType, v: Datum)
    requires Typed(l, v) && EncodeValue(l, v).Some? && Short(l, v)
    ensures var p := PayloadOf(l, v);
            PayloadOk(p) && PayloadBytes(p) == EncodeValue(l, v).value && PayloadNumber(p) == WireType(l)
  {
    hide Varint, IsVarint, EncodeFields, TypedMessage, ShortMessage;
    match l
    case BoolType => VarintIsOne(v.n);
    case VarintType(w) => Widths(v.n, w); VarintIsOne(ToUnsigned(v.n));
    case UVarintType(_) => VarintIsOne(v.n);
    case SVarintType(w) => Widths(v.n, w); VarintIsOne(ZigZag(v.n));
    case _ =>
  }

  /** Whoever reads an encoded value by its wire type alone is left with what follows it. */
  lemma ValueSkipped(l: LType, v: Datum, tail: Bytes)
    requires Typed(l, v) && EncodeValue(l, v).Some? && Short(l, v)
    ensures SkipField(WireType(l), EncodeValue(l, v).value + tail) == Some(tail)
  {
    hide SkipField, Typed, EncodeValue, Short, WireType;
    ValueIsPayload(l, v);
    PayloadSkipped(PayloadOf(l, v), tail);
  }

  /** The records of a field. */
  function SlotRecords(f: Field, s: Slot): seq<Record>
    requires TypedSlot(f, s) && EncodeSlot(f, s).Some?
  {
    match f.htype
    case Required => [Record(f.tag, PayloadOf(f.ltype, s.v))]
    case Optional | OneOf(_) => if s.o.None? then [] else [Record(f.tag, PayloadOf(f.ltype, s.o.value))]
    case Repeated(_) =>
      if s.items == [] then []
      else if Packable(f.ltype) then [Record(f.tag, Delimited(EncodeItems([], f.ltype, s.items).value))]
      else ItemRecords(f, s.items)
  }

  function ItemRecords(f: Field, items: seq<Datum>): seq<Record>
    requires (forall i :: 0 <= i < |items| ==> Typed(f.ltype, items[i]))
    requires EncodeItems(TagBytes(f.tag, WireType(f.ltype)), f.ltype, items).Some?
    decreases |items|
  {
    if items == [] then [] else [Record(f.tag, PayloadOf(f.ltype, items[0]))] + ItemRecords(f, items[1..])
  }

  /** The records are those of the field, and payloads match it. */
  ghost predicate OfField(f: Field, rs: seq<Record>) {
    forall k :: 0 <= k < |rs| ==> rs[k].number == f.tag && RecordOk(rs[k]) && Matches(f, rs[k].payload)
  }

  lemma OneRecord(f: Field, v: Datum)
    requires 0 < f.tag < 0x2000_0000 && Typed(f.ltype, v) && EncodeValue(f.ltype, v).Some? && Short(f.ltype, v)
    ensures var r := Record(f.tag, PayloadOf(f.ltype, v));
            && OfField(f, [r]) && Written([r]) == TagBytes(f.tag, WireType(f.ltype)) + EncodeValue(f.ltype, v).value
  {
    hide Typed, EncodeValue, Short, WireType, Varint, PayloadOk, PayloadOf, PayloadBytes;
    ValueIsPayload(f.ltype, v);
    var r := Record(f.tag, PayloadOf(f.ltype, v));
    assert [r][1..] == [] && RecordBytes(r) + [] == RecordBytes(r);
  }

  lemma {:induction false} ItemsAreRecords(f: Field, items: seq<Datum>)
    requires 0 < f.tag < 0x2000_0000
    requires forall i :: 0 <= i < |items| ==> Typed(f.ltype, items[i]) && Short(f.ltype, items[i])
    requires EncodeItems(TagBytes(f.tag, WireType(f.ltype)), f.ltype, items).Some?
    ensures OfField(f, ItemRecords(f, items))
    ensures Written(ItemRecords(f, items)) == EncodeItems(TagBytes(f.tag, WireType(f.ltype)), f.ltype, items).value
    decreases |items|
  {
    hide Typed, EncodeValue, Short, WireType, TagBytes, PayloadOf, RecordBytes, Matches, RecordOk;
    if items != [] {
      OneRecord(f, items[0]);
      ItemsAreRecords(f, items[1..]);
      WrittenBoth([Record(f.tag, PayloadOf(f.ltype, items[0]))], ItemRecords(f, items[1..]));
    }
  }

  lemma SlotIsRecords(f: Field, s: Slot)
    requires 0 < f.tag < 0x2000_0000 && TypedSlot(f, s) && EncodeSlot(f, s).Some? && ShortSlot(f, s)
    ensures OfField(f, SlotRecords(f, s)) && Written(SlotRecords(f, s)) == EncodeSlot(f, s).value
  {
    hide Typed, EncodeValue, Short, WireType, TagBytes, PayloadOf, RecordBytes, ItemRecords, EncodeItems;
    match f.htype
    case Required => OneRecord(f, s.v);
    case Optional | OneOf(_) =>
      if s.o.Some? {
        OneRecord(f, s.o.value);
      }
    case Repeated(_) =>
      if s.items != [] && Packable(f.ltype) {
        PackedRecord(f, s.items);
      } else if s.items != [] {
        ItemsAreRecords(f, s.items);
      }
  }

  lemma PackedRecord(f: Field, items: seq<Datum>)
    requires 0 < f.tag < 0x2000_0000 && f.htype.Repeated? && Packable(f.ltype)
    requires forall i :: 0 <= i < |items| ==> Typed(f.ltype, items[i])
    requires EncodeItems([], f.ltype, items).Some? && |EncodeItems([], f.ltype, items).value| < WORD
    ensures var r := Record(f.tag, Delimited(EncodeItems([], f.ltype, items).value));
            OfField(f, [r]) && Written([r]) == TagBytes(f.tag, WT_STRING) + WithLength(EncodeItems([], f.ltype, items).value)
  {
    hide EncodeItems, Typed, Varint;
    var r := Record(f.tag, Delimited(EncodeItems([], f.ltype, items).value));
    assert [r][1..] == [] && RecordBytes(r) + [] == RecordBytes(r);
  }

  // ------------------------------------------------------------------ whole messages

  ghost predicate SlotsFit(fs: seq<Field>, ss: seq<Slot>) {
    && |fs| == |ss|
    && forall i :: 0 <= i < |fs| ==>
         0 < fs[i].tag < 0x2000_0000 && TypedSlot(fs[i], ss[i]) && EncodeSlot(fs[i], ss[i]).Some? && ShortSlot(fs[i], ss[i])
  }

  ghost function RecordsOf(fs: seq<Field>, ss: seq<Slot>): seq<Record>
    requires SlotsFit(fs, ss)
    decreases |fs|
  {
    if fs == [] then [] else SlotRecords(fs[0], ss[0]) + RecordsOf(fs[1..], ss[1..])
  }

  lemma {:induction false} FieldsFit(d: Descriptor, slots: seq<Slot>, from: nat)
    requires DescriptorOk(d) && TypedMessage(d, slots) && ShortMessage(d, slots) && from <= |slots| == |d.fields|
    requires EncodeFields(d, slots, from).Some?
    ensures SlotsFit(d.fields[from..], slots[from..])
    decreases |slots| - from
  {
    hide TypedSlot, EncodeSlot, ShortSlot;
    if from < |slots| {
      FieldsFit(d, slots, from + 1);
      SlotParts(d, slots, from);
      var fs, ss := d.fields[from..], slots[from..];
      assert forall i :: 1 <= i < |fs| ==> fs[i] == d.fields[from + 1..][i - 1] && ss[i] == slots[from + 1..][i - 1];
    }
  }

  /** The bytes of a message are those of its records. */
  lemma {:induction false} FieldsAreRecords(d: Descriptor, slots: seq<Slot>, from: nat)
    requires TypedMessage(d, slots) && from <= |slots| == |d.fields| && EncodeFields(d, slots, from).Some?
    requires SlotsFit(d.fields[from..], slots[from..])
    ensures EncodeFields(d, slots, from).value == Written(RecordsOf(d.fields[from..], slots[from..]))
    decreases |slots| - from
  {
    hide TypedSlot, EncodeSlot, ShortSlot, SlotRecords;
    if from < |slots| {
      assert d.fields[from..][1..] == d.fields[from + 1..] && slots[from..][1..] == slots[from + 1..];
      SlotParts(d, slots, from);
      FieldsAreRecords(d, slots, from + 1);
      SlotIsRecords(d.fields[from], slots[from]);
      WrittenBoth(SlotRecords(d.fields[from], slots[from]), RecordsOf(d.fields[from + 1..], slots[from + 1..]));
    }
  }

  // ------------------------------------------------------------------ an older message type

  /** The elements that are kept. */
  function Keep<T>(s: seq<T>, keep: seq<bool>): (r: seq<T>)
    requires |s| == |keep|
    ensures |r| == Count(keep)
  {
    if s == [] then [] else (if keep[0] then [s[0]] else []) + Keep(s[1..], keep[1..])
  }

  function Count(keep: seq<bool>): nat {
    if keep == [] then 0 else (if keep[0] then 1 else 0) + Count(keep[1..])
  }

  /** Where the k-th of them stood. */
  function Place(keep: seq<bool>, k: nat): (i: nat)
    requires k < Count(keep)
    ensures i < |keep| && keep[i]
  {
    if !keep[0] then 1 + Place(keep[1..], k) else if k == 0 then 0 else 1 + Place(keep[1..], k - 1)
  }

  lemma {:induction false} KeepAt<T>(s: seq<T>, keep: seq<bool>, k: nat)
    requires |s| == |keep| && k < Count(keep)
    ensures Keep(s, keep)[k] == s[Place(keep, k)]
    decreases |s|
  {
    if !keep[0] {
      KeepAt(s[1..], keep[1..], k);
    } else if k > 0 {
      KeepAt(s[1..], keep[1..], k - 1);
    }
  }

  lemma {:induction false} PlacesGrow(keep: seq<bool>, j: nat, k: nat)
    requires j < k < Count(keep)
    ensures Place(keep, j) < Place(keep, k)
    decreases |keep|
  {
    if !keep[0] {
      PlacesGrow(keep[1..], j, k);
    } else if j > 0 {
      PlacesGrow(keep[1..], j - 1, k - 1);
    }
  }

  lemma {:induction false} PlaceOf(keep: seq<bool>, i: nat) returns (k: nat)
    requires i < |keep| && keep[i]
    ensures k < Count(keep) && Place(keep, k) == i
    decreases |keep|
  {
    if i == 0 {
      k := 0;
    } else {
      k := PlaceOf(keep[1..], i - 1);
      k := if keep[0] then k + 1 else k;
    }
  }

  lemma {:induction false} OnlyKnownBoth(d: Descriptor, a: seq<Record>, b: seq<Record>)
    ensures OnlyKnown(d, a + b) == OnlyKnown(d, a) + OnlyKnown(d, b)
  {
    hide OnlyKnown;
    NothingKnown(d);
    if a == [] {
      assert [] + b == b;
    } else {
      OnlyKnownBoth(d, a[1..], b);
      OnlyKnownMore(d, a);
      OnlyKnownMore(d, a + b);
      assert (a + b)[1..] == a[1..] + b;
    }
  }

  lemma OnlyKnownMore(d: Descriptor, rs: seq<Record>)
    requires rs != []
    ensures OnlyKnown(d, rs) == (if Find(d, rs[0].number, 0).Some? then [rs[0]] else []) + OnlyKnown(d, rs[1..])
  {
  }

  /** The records of one field are all known or all unknown. */
  lemma {:induction false} OnlyKnownField(d: Descriptor, f: Field, rs: seq<Record>)
    requires OfField(f, rs)
    ensures OnlyKnown(d, rs) == if Known(d, f.tag) then rs else []
  {
    hide RecordOk, Matches;
    UnknownNotFound(d, f.tag);
    if rs != [] {
      assert rs[0].number == f.tag;
      OnlyKnownField(d, f, rs[1..]);
      assert [rs[0]] + rs[1..] == rs;
    }
  }

  /** Of the records of all fields those of the kept fields are known. */
  lemma {:induction false} KeptRecords(d: Descriptor, fs: seq<Field>, ss: seq<Slot>, keep: seq<bool>)
    requires SlotsFit(fs, ss) && |keep| == |fs|
    requires forall i :: 0 <= i < |fs| ==> (Known(d, fs[i].tag) <==> keep[i])
    ensures SlotsFit(Keep(fs, keep), Keep(ss, keep))
    ensures OnlyKnown(d, RecordsOf(fs, ss)) == RecordsOf(Keep(fs, keep), Keep(ss, keep))
    decreases |fs|
  {
    hide TypedSlot, EncodeSlot, ShortSlot, SlotRecords, Known, OfField, OnlyKnown;
    if fs == [] {
      NothingKnown(d);
    } else {
      assert SlotsFit(fs[1..], ss[1..]);
      KeptRecords(d, fs[1..], ss[1..], keep[1..]);
      SlotIsRecords(fs[0], ss[0]);
      OnlyKnownField(d, fs[0], SlotRecords(fs[0], ss[0]));
      OnlyKnownBoth(d, SlotRecords(fs[0], ss[0]), RecordsOf(fs[1..], ss[1..]));
      var f', s' := Keep(fs, keep), Keep(ss, keep);
      assert keep[0] ==> f'[0] == fs[0] && s'[0] == ss[0] && f'[1..] == Keep(fs[1..], keep[1..]) && s'[1..] == Keep(ss[1..], keep[1..]);
      assert !keep[0] ==> f' == Keep(fs[1..], keep[1..]) && s' == Keep(ss[1..], keep[1..]);
    }
  }

  lemma NothingKnown(d: Descriptor)
    ensures OnlyKnown(d, []) == []
  {
  }

  /** A message type with some of the fields, and the message with these. */
  function Fewer(d: Descriptor, keep: seq<bool>): Descriptor
    requires |keep| == |d.fields|
  {
    Descriptor(Keep(d.fields, keep))
  }

  lemma FewerKnown(d: Descriptor, keep: seq<bool>, i: nat)
    requires TagsOk(d) && |keep| == |d.fields| && i < |d.fields|
    ensures Known(Fewer(d, keep), d.fields[i].tag) <==> keep[i]
  {
    hide TagsOk;
    var e := Fewer(d, keep);
    if keep[i] {
      var k := PlaceOf(keep, i);
      KeepAt(d.fields, keep, k);
    }
    forall k | 0 <= k < |e.fields| && e.fields[k].tag == d.fields[i].tag
      ensures keep[i]
    {
      KeepAt(d.fields, keep, k);
      TagsDiffer(d, Place(keep, k), i);
    }
  }

  lemma FewerOk(d: Descriptor, keep: seq<bool>)
    requires DescriptorOk(d) && |keep| == |d.fields|
    ensures DescriptorOk(Fewer(d, keep))
  {
    var e := Fewer(d, keep);
    forall k | 0 <= k < |e.fields|
      ensures 0 < e.fields[k].tag < 0x2000_0000
      ensures e.fields[k].ltype.MessageType? ==> DescriptorOk(e.fields[k].ltype.d)
    {
      KeepAt(d.fields, keep, k);
    }
    forall j, k | 0 <= j < k < |e.fields|
      ensures e.fields[j].tag != e.fields[k].tag
    {
      KeepAt(d.fields, keep, j);
      KeepAt(d.fields, keep, k);
      PlacesGrow(keep, j, k);
    }
  }

  lemma FewerTyped(d: Descriptor, slots: seq<Slot>, keep: seq<bool>)
    requires TypedMessage(d, slots) && |keep| == |d.fields| == |slots|
    ensures TypedMessage(Fewer(d, keep), Keep(slots, keep))
    ensures ShortMessage(d, slots) ==> ShortMessage(Fewer(d, keep), Keep(slots, keep))
  {
    hide TypedSlot, ShortSlot;
    var e, m := Fewer(d, keep), Keep(slots, keep);
    forall k | 0 <= k < |m|
      ensures TypedSlot(e.fields[k], m[k]) && (ShortMessage(d, slots) ==> ShortSlot(e.fields[k], m[k]))
    {
      KeepAt(d.fields, keep, k);
      KeepAt(slots, keep, k);
    }
    forall j, k | 0 <= j < k < |m| && SameUnion(e.fields[j], e.fields[k]) && m[j].Maybe? && m[k].Maybe?
      ensures m[j].o.None? || m[k].o.None?
    {
      KeepAt(d.fields, keep, j);
      KeepAt(d.fields, keep, k);
      KeepAt(slots, keep, j);
      KeepAt(slots, keep, k);
      PlacesGrow(keep, j, k);
    }
  }

  lemma {:induction false} FitEncodes(d: Descriptor, slots: seq<Slot>, from: nat)
    requires TypedMessage(d, slots) && from <= |slots| == |d.fields| && SlotsFit(d.fields[from..], slots[from..])
    ensures EncodeFields(d, slots, from).Some?
    decreases |slots| - from
  {
    hide TypedSlot, EncodeSlot, ShortSlot;
    if from < |slots| {
      var fs, ss := d.fields[from..], slots[from..];
      assert forall i :: 1 <= i < |fs| ==> fs[i] == d.fields[from + 1..][i - 1] && ss[i] == slots[from + 1..][i - 1];
      assert fs[0] == d.fields[from] && ss[0] == slots[from];
      FitEncodes(d, slots, from + 1);
    }
  }

  /** Every record belongs to a field. */
  lemma {:induction false} RecordsBelong(fs: seq<Field>, ss: seq<Slot>)
    requires SlotsFit(fs, ss)
    ensures forall k :: 0 <= k < |RecordsOf(fs, ss)| ==> Belongs(fs, RecordsOf(fs, ss)[k])
    decreases |fs|
  {
    hide TypedSlot, EncodeSlot, ShortSlot, SlotRecords, Matches, RecordOk;
    if fs != [] {
      assert SlotsFit(fs[1..], ss[1..]);
      RecordsBelong(fs[1..], ss[1..]);
      SlotIsRecords(fs[0], ss[0]);
      var front, rest := SlotRecords(fs[0], ss[0]), RecordsOf(fs[1..], ss[1..]);
      forall k | 0 <= k < |front + rest|
        ensures Belongs(fs, (front + rest)[k])
      {
        if k < |front| {
          assert (front + rest)[k] == front[k];
        } else {
          assert (front + rest)[k] == rest[k - |front|];
          var i :| 0 <= i < |fs[1..]| && rest[k - |front|].number == fs[1..][i].tag && Matches(fs[1..][i], rest[k - |front|].payload);
          assert fs[1..][i] == fs[i + 1];
        }
      }
    }
  }

  ghost predicate Belongs(fs: seq<Field>, r: Record) {
    RecordOk(r) && exists i :: 0 <= i < |fs| && r.number == fs[i].tag && Matches(fs[i], r.payload)
  }

  lemma BelongingMatch(d: Descriptor, keep: seq<bool>, rs: seq<Record>)
    requires TagsOk(d) && |keep| == |d.fields| && forall k :: 0 <= k < |rs| ==> Belongs(d.fields, rs[k])
    ensures RecordsOk(rs) && AllMatch(Fewer(d, keep), rs)
  {
    hide TagsOk, Matches, RecordOk;
    var e := Fewer(d, keep);
    forall k, i | 0 <= k < |rs| && 0 <= i < |e.fields| && e.fields[i].tag == rs[k].number
      ensures Matches(e.fields[i], rs[k].payload)
    {
      KeepAt(d.fields, keep, i);
      assert Belongs(d.fields, rs[k]);
      var j :| 0 <= j < |d.fields| && rs[k].number == d.fields[j].tag && Matches(d.fields[j], rs[k].payload);
      TagsDiffer(d, Place(keep, i), j);
    }
  }

  lemma WholeMessage(d: Descriptor, slots: seq<Slot>)
    requires DescriptorOk(d) && TypedMessage(d, slots) && ShortMessage(d, slots) && Encode(d, slots).Some?
    ensures |slots| == |d.fields| && SlotsFit(d.fields, slots) && Encode(d, slots).value == Written(RecordsOf(d.fields, slots))
  {
    hide TypedSlot, DescriptorOk, ShortMessage, EncodeFields, SlotsFit;
    FieldsFit(d, slots, 0);
    assert d.fields[0..] == d.fields && slots[0..] == slots;
    FieldsAreRecords(d, slots, 0);
  }

  /** A reader whose message type has only some of the fields gets exactly these. */
  lemma OlderReader(d: Descriptor, slots: seq<Slot>, keep: seq<bool>)
    requires DescriptorOk(d) && TypedMessage(d, slots) && ShortMessage(d, slots) && Encode(d, slots).Some?
    requires |keep| == |d.fields| == |slots|
    ensures DescriptorOk(Fewer(d, keep)) && TypedMessage(Fewer(d, keep), Keep(slots, keep))
    ensures Decode(Fewer(d, keep), Encode(d, slots).value) ==
            if TerminatedFrom(Fewer(d, keep), Keep(slots, keep), 0) then Some(Keep(slots, keep)) else None
  {
    hide *;
    var e, m := Fewer(d, keep), Keep(slots, keep);
    WholeMessage(d, slots);
    FewerOk(d, keep);
    FewerTyped(d, slots, keep);
    DescriptorParts(d);
    DescriptorParts(e);
    forall i | 0 <= i < |d.fields|
      ensures Known(e, d.fields[i].tag) <==> keep[i]
    {
      FewerKnown(d, keep, i);
    }
    var rs := RecordsOf(d.fields, slots);
    RecordsBelong(d.fields, slots);
    BelongingMatch(d, keep, rs);
    UnknownIgnored(e, rs);
    FitLength(d.fields, slots);
    KeptRecords(e, d.fields, slots, keep);
    FewerIs(d, keep);
    EncodesKept(e, m);
    RoundTrip(e, m);
  }

  lemma FitLength(fs: seq<Field>, ss: seq<Slot>)
    requires SlotsFit(fs, ss)
    ensures |fs| == |ss|
  {
  }

  lemma DescriptorParts(d: Descriptor)
    requires DescriptorOk(d)
    ensures TagsOk(d)
  {
  }

  lemma FewerIs(d: Descriptor, keep: seq<bool>)
    requires |keep| == |d.fields|
    ensures Fewer(d, keep).fields == Keep(d.fields, keep)
  {
  }

  lemma EncodesKept(e: Descriptor, m: seq<Slot>)
    requires TypedMessage(e, m) && SlotsFit(e.fields, m)
    ensures Encode(e, m).Some? && Encode(e, m).value == Written(RecordsOf(e.fields, m))
  {
    hide TypedSlot, EncodeFields, SlotsFit;
    assert e.fields[0..] == e.fields && m[0..] == m;
    FitLength(e.fields, m);
    FitEncodes(e, m, 0);
    FieldsAreRecords(e, m, 0);
  }

  // ------------------------------------------------------------------ in any order

  lemma {:induction false} ApplyBoth(d: Descriptor, slots: seq<Slot>, a: seq<Record>, b: seq<Record>)
    requires ShapedMessage(d, slots)
    ensures var s := ApplyAll(d, slots, a);
            ApplyAll(d, slots, a + b) == if s.None? then None else ApplyAll(d, s.value, b)
    decreases |a|
  {
    hide Apply, ShapedMessage;
    if a == [] {
      assert [] + b == b;
    } else {
      assert (a + b)[0] == a[0] && (a + b)[1..] == a[1..] + b;
      var s := Apply(d, slots, a[0]);
      if s.Some? {
        ApplyBoth(d, s.value, a[1..], b);
      }
    }
  }

  lemma SameNumbers(d: Descriptor, seen: set<nat>, rs: seq<Record>, qs: seq<Record>)
    requires forall r :: r in rs <==> r in qs
    ensures Complete(d, seen, rs) <==> Complete(d, seen, qs)
  {
    hide Tracked, RequiredBefore;
    forall i | 0 <= i < |d.fields|
      ensures (exists k :: 0 <= k < |rs| && rs[k].number == d.fields[i].tag) <==>
              (exists k :: 0 <= k < |qs| && qs[k].number == d.fields[i].tag)
    {
      if k :| 0 <= k < |rs| && rs[k].number == d.fields[i].tag {
        assert rs[k] in qs;
      }
      if k :| 0 <= k < |qs| && qs[k].number == d.fields[i].tag {
        assert qs[k] in rs;
      }
    }
  }

  /** Neither record replaces what the other leaves. */
  predicate Independent(d: Descriptor, a: nat, b: nat) {
    forall i, j :: 0 <= i < |d.fields| && 0 <= j < |d.fields| && d.fields[i].tag == a && d.fields[j].tag == b ==>
      i != j && !SameUnion(d.fields[i], d.fields[j])
  }

  lemma SwappedApply(d: Descriptor, slots: seq<Slot>, a: Record, b: Record)
    requires TagsOk(d) && ShapedMessage(d, slots) && Independent(d, a.number, b.number)
    ensures ApplyAll(d, slots, [a, b]) == ApplyAll(d, slots, [b, a])
  {
    hide ShapedMessage, TagsOk, ApplyAll, DecodeField;
    var i, j := Find(d, a.number, 0), Find(d, b.number, 0);
    if i.Some? && j.Some? {
      OrderDoesNotMatter(d, slots, i.value, a.payload, j.value, b.payload);
    } else {
      TwoApplied(d, slots, a, b);
      TwoApplied(d, slots, b, a);
    }
  }

  /** Two neighbouring records of different fields may change places anywhere in a message. */
  lemma AnyOrder(d: Descriptor, front: seq<Record>, a: Record, b: Record, back: seq<Record>)
    requires TagsOk(d) && RecordsOk(front + [a, b] + back) && AllMatch(d, front + [a, b] + back)
    requires Independent(d, a.number, b.number)
    ensures Decode(d, Written(front + [a, b] + back)) == Decode(d, Written(front + [b, a] + back))
  {
    var rs, qs := front + [a, b] + back, front + [b, a] + back;
    forall r
      ensures r in rs <==> r in qs
    {
    }
    MembersOk(d, rs, qs);
    SameNumbers(d, {}, rs, qs);
    hide *;
    DefaultShaped(d);
    MessageDecodes(d, rs);
    MessageDecodes(d, qs);
    SwappedAll(d, Default(d), front, a, b, back);
  }

  lemma MembersOk(d: Descriptor, rs: seq<Record>, qs: seq<Record>)
    requires RecordsOk(rs) && AllMatch(d, rs) && forall r :: r in qs ==> r in rs
    ensures RecordsOk(qs) && AllMatch(d, qs)
  {
    hide RecordOk, Matches;
    forall k | 0 <= k < |qs|
      ensures qs[k] in rs
    {
      assert qs[k] in qs;
    }
  }

  lemma SwappedAll(d: Descriptor, slots: seq<Slot>, front: seq<Record>, a: Record, b: Record, back: seq<Record>)
    requires TagsOk(d) && ShapedMessage(d, slots) && Independent(d, a.number, b.number)
    ensures ApplyAll(d, slots, front + [a, b] + back) == ApplyAll(d, slots, front + [b, a] + back)
  {
    hide *;
    ApplyBoth(d, slots, front + [a, b], back);
    ApplyBoth(d, slots, front + [b, a], back);
    ApplyBoth(d, slots, front, [a, b]);
    ApplyBoth(d, slots, front, [b, a]);
    var s := ApplyAll(d, slots, front);
    if s.Some? {
      SwappedApply(d, s.value, a, b);
    }
  }

  // ------------------------------------------------------------------ arrays in pieces

  /** Items of an array as they may come: one with a tag of its own, or several packed. */
  datatype Piece = Alone(v: Datum) | Together(vs: seq<Datum>)

  function ItemsOf(p: Piece): seq<Datum> {
    if p.Alone? then [p.v] else p.vs
  }

  function AllItems(ps: seq<Piece>): seq<Datum> {
    if ps == [] then [] else ItemsOf(ps[0]) + AllItems(ps[1..])
  }

  predicate PieceOk(l: LType, p: Piece) {
    Packable(l) &&
    match p
    case Alone(v) => Typed(l, v)
    case Together(vs) => (forall i :: 0 <= i < |vs| ==> Typed(l, vs[i])) && PackedSmall(l, vs)
  }

  predicate PackedSmall(l: LType, vs: seq<Datum>)
    requires Packable(l) && forall i :: 0 <= i < |vs| ==> Typed(l, vs[i])
  {
    PackedBack(l, [], vs, |vs|);
    |EncodeItems([], l, vs).value| < WORD
  }

  /** The record of a piece. */
  function PieceRecord(f: Field, p: Piece): Record
    requires PieceOk(f.ltype, p)
  {
    match p
    case Alone(v) => NumberBack(f.ltype, v, []); Record(f.tag, PayloadOf(f.ltype, v))
    case Together(vs) => PackedBack(f.ltype, [], vs, |vs|); Record(f.tag, Delimited(EncodeItems([], f.ltype, vs).value))
  }

  function PieceRecords(f: Field, ps: seq<Piece>): seq<Record>
    requires forall i :: 0 <= i < |ps| ==> PieceOk(f.ltype, ps[i])
  {
    if ps == [] then [] else [PieceRecord(f, ps[0])] + PieceRecords(f, ps[1..])
  }

  /** Packed numbers are taken as far as there is room, and more of them are an error. */
  lemma {:induction false} PackedFits(l: LType, done: seq<Datum>, vs: seq<Datum>, max: nat)
    requires Packable(l) && (forall i :: 0 <= i < |vs| ==> Typed(l, vs[i])) && |done| <= max
    ensures EncodeItems([], l, vs).Some?
    ensures DecodePacked(l, done, max, EncodeItems([], l, vs).value) == if |done| + |vs| <= max then Some(done + vs) else None
    decreases |vs|
  {
    hide Typed, EncodeValue, DecodeValue, DecodePacked, EncodeItems;
    PackedBack(l, done, vs, |done| + |vs|);
    if |done| + |vs| <= max {
      PackedBack(l, done, vs, max);
    } else if |done| == max {
      PackedFull(l, done, vs);
    } else {
      PackedFits(l, done + [vs[0]], vs[1..], max);
      PackedStep(l, done, vs, max);
    }
  }

  lemma PackedFull(l: LType, done: seq<Datum>, vs: seq<Datum>)
    requires Packable(l) && (forall i :: 0 <= i < |vs| ==> Typed(l, vs[i])) && vs != [] && EncodeItems([], l, vs).Some?
    ensures DecodePacked(l, done, |done|, EncodeItems([], l, vs).value) == None
  {
    hide Typed, EncodeValue, DecodeValue;
    NumberNotEmpty(l, vs[0]);
  }

  /** A piece is put behind the items that are there, if there is room. */
  lemma PieceApplied(d: Descriptor, slots: seq<Slot>, i: nat, p: Piece)
    requires TagsOk(d) && ShapedMessage(d, slots) && |slots| == |d.fields| && i < |slots| && PieceOk(d.fields[i].ltype, p)
    requires d.fields[i].htype.Repeated? && slots[i].Many? && |slots[i].items| <= d.fields[i].htype.arraySize
    ensures var items, max := slots[i].items, d.fields[i].htype.arraySize;
            Apply(d, slots, PieceRecord(d.fields[i], p)) ==
            if |items| + |ItemsOf(p)| <= max then Some(slots[i := Many(items + ItemsOf(p))]) else None
  {
    hide Typed, EncodeValue, DecodeValue, DecodePacked, EncodeItems, Varint, ShapedMessage, TagsOk, DefaultValue, Sub;
    var f, items := d.fields[i], slots[i].items;
    FindIs(d, i, 0);
    match p
    case Alone(v) =>
      NumberBack(f.ltype, v, []);
      NumberPayload(f.ltype, v);
      assert EncodeValue(f.ltype, v).value + [] == EncodeValue(f.ltype, v).value;
      DefaultValueShaped(f);
      assert DecodeValue(f.ltype, DefaultValue(f), EncodeValue(f.ltype, v).value) == Some((v, []));
    case Together(vs) =>
      PackedFits(f.ltype, items, vs, f.htype.arraySize);
      LengthLocal(EncodeItems([], f.ltype, vs).value, []);
  }

  lemma NumberPayload(l: LType, v: Datum)
    requires Packable(l) && Typed(l, v) && EncodeValue(l, v).Some?
    ensures PayloadBytes(PayloadOf(l, v)) == EncodeValue(l, v).value && PayloadNumber(PayloadOf(l, v)) != WT_STRING
  {
    hide EncodeValue;
  }

  lemma {:induction false} PiecesApplied(d: Descriptor, slots: seq<Slot>, i: nat, ps: seq<Piece>)
    requires TagsOk(d) && ShapedMessage(d, slots) && |slots| == |d.fields| && i < |slots|
    requires forall k :: 0 <= k < |ps| ==> PieceOk(d.fields[i].ltype, ps[k])
    requires d.fields[i].htype.Repeated? && slots[i].Many? && |slots[i].items| <= d.fields[i].htype.arraySize
    ensures var items, max := slots[i].items, d.fields[i].htype.arraySize;
            ApplyAll(d, slots, PieceRecords(d.fields[i], ps)) ==
            if |items| + |AllItems(ps)| <= max then Some(slots[i := Many(items + AllItems(ps))]) else None
    decreases |ps|
  {
    hide ShapedMessage, TagsOk, PieceOk, PieceRecord, Apply;
    var items := slots[i].items;
    if ps == [] {
      assert items + [] == items && slots[i := Many(items)] == slots;
    } else {
      PieceApplied(d, slots, i, ps[0]);
      var more := items + ItemsOf(ps[0]);
      assert PieceRecords(d.fields[i], ps)[1..] == PieceRecords(d.fields[i], ps[1..]);
      assert items + AllItems(ps) == more + AllItems(ps[1..]);
      if |more| <= d.fields[i].htype.arraySize {
        var next := slots[i := Many(more)];
        PiecesApplied(d, next, i, ps[1..]);
        assert next[i := Many(more + AllItems(ps[1..]))] == slots[i := Many(items + AllItems(ps))];
      }
    }
  }

  // ------------------------------------------------------------------ within a message

  /** No array has more items than there is room for. */
  predicate InRoom(d: Descriptor, slots: seq<Slot>)
    requires ShapedMessage(d, slots)
  {
    forall i :: 0 <= i < |slots| ==> SlotInRoom(d.fields[i], slots[i])
  }

  predicate SlotInRoom(f: Field, s: Slot) {
    f.htype.Repeated? && s.Many? ==> |s.items| <= f.htype.arraySize
  }

  lemma {:induction false} PackedInRoom(l: LType, items: seq<Datum>, max: nat, b: Bytes)
    requires Packable(l) && |items| <= max
    ensures DecodePacked(l, items, max, b).Some? ==> |DecodePacked(l, items, max, b).value| <= max
    decreases |b|
  {
    hide DecodeValue;
    if b != [] && |items| < max {
      var v := DecodeValue(l, Num(0), b);
      if v.Some? {
        PackedInRoom(l, items + [v.value.0], max, v.value.1);
      }
    }
  }

  lemma ApplyInRoom(d: Descriptor, slots: seq<Slot>, r: Record)
    requires ShapedMessage(d, slots) && InRoom(d, slots)
    ensures var s := Apply(d, slots, r); s.Some? ==> InRoom(d, s.value)
  {
    hide DecodeValue, DecodePacked, DefaultValue, PayloadBytes, Shaped, Sub;
    var i := Find(d, r.number, 0);
    if i.Some? {
      var f, s := d.fields[i.value], slots[i.value];
      assert ShapedSlot(f, s);
      if f.htype.Repeated? && Packable(f.ltype) {
        var v := Sub(PayloadBytes(r.payload));
        if v.Some? {
          PackedInRoom(f.ltype, s.items, f.htype.arraySize, v.value.0);
        }
      }
    }
  }

  lemma {:induction false} AllInRoom(d: Descriptor, slots: seq<Slot>, rs: seq<Record>)
    requires ShapedMessage(d, slots) && InRoom(d, slots)
    ensures var s := ApplyAll(d, slots, rs); s.Some? ==> InRoom(d, s.value)
    decreases |rs|
  {
    hide Apply, ShapedMessage, InRoom;
    if rs != [] {
      ApplyInRoom(d, slots, rs[0]);
      var s := Apply(d, slots, rs[0]);
      if s.Some? {
        AllInRoom(d, s.value, rs[1..]);
      }
    }
  }

  lemma DefaultInRoom(d: Descriptor)
    ensures ShapedMessage(d, Default(d)) && InRoom(d, Default(d))
  {
    DefaultShaped(d);
    hide ShapedMessage, DefaultValue;
    assert forall i :: 0 <= i < |d.fields| ==> Default(d)[i] == DefaultSlot(d.fields[i]);
    hide Default;
  }

  lemma FieldMatches(d: Descriptor, i: nat, rs: seq<Record>)
    requires TagsOk(d) && i < |d.fields| && OfField(d.fields[i], rs)
    ensures RecordsOk(rs) && AllMatch(d, rs)
  {
    hide TagsOk, RecordOk, Matches;
    forall k, j | 0 <= k < |rs| && 0 <= j < |d.fields| && d.fields[j].tag == rs[k].number
      ensures Matches(d.fields[j], rs[k].payload)
    {
      TagsDiffer(d, i, j);
    }
  }

  lemma PartsMatch(d: Descriptor, a: seq<Record>, b: seq<Record>, c: seq<Record>)
    requires RecordsOk(a) && RecordsOk(b) && RecordsOk(c) && AllMatch(d, a) && AllMatch(d, b) && AllMatch(d, c)
    ensures RecordsOk(a + b + c) && AllMatch(d, a + b + c)
  {
    hide RecordOk, Matches;
    var all := a + b + c;
    assert forall k :: 0 <= k < |all| ==> all[k] == if k < |a| then a[k] else if k < |a| + |b| then b[k - |a|] else c[k - |a| - |b|];
  }

  /** Two stretches of records that do the same to every message, and of which neither is
      needed for a required field, or both for the same. */
  ghost predicate SameEffect(d: Descriptor, i: nat, a: seq<Record>, b: seq<Record>)
    requires i < |d.fields|
  {
    && OfField(d.fields[i], a) && OfField(d.fields[i], b) && ((a == [] <==> b == []) || !d.fields[i].htype.Required?)
    && forall slots :: ShapedMessage(d, slots) && InRoom(d, slots) ==> ApplyAll(d, slots, a) == ApplyAll(d, slots, b)
  }

  /** Whether a field has a record in one of three stretches. */
  ghost predicate Has(rs: seq<Record>, number: nat) {
    exists k :: 0 <= k < |rs| && rs[k].number == number
  }

  lemma HasParts(a: seq<Record>, b: seq<Record>, c: seq<Record>, number: nat)
    ensures Has(a + b + c, number) <==> Has(a, number) || Has(b, number) || Has(c, number)
  {
    var all := a + b + c;
    if k :| 0 <= k < |all| && all[k].number == number {
      assert if k < |a| then a[k].number == number else if k < |a| + |b| then b[k - |a|].number == number
             else c[k - |a| - |b|].number == number;
    }
    if k :| 0 <= k < |a| && a[k].number == number {
      assert all[k].number == number;
    }
    if k :| 0 <= k < |b| && b[k].number == number {
      assert all[|a| + k].number == number;
    }
    if k :| 0 <= k < |c| && c[k].number == number {
      assert all[|a| + |b| + k].number == number;
    }
  }

  lemma CompleteIs(d: Descriptor, rs: seq<Record>)
    ensures Complete(d, {}, rs) <==> forall j :: 0 <= j < |d.fields| && Tracked(d, j) ==> Has(rs, d.fields[j].tag)
  {
    hide Tracked, RequiredBefore;
  }

  lemma SameComplete(d: Descriptor, i: nat, front: seq<Record>, a: seq<Record>, b: seq<Record>, back: seq<Record>)
    requires TagsOk(d) && i < |d.fields| && SameEffect(d, i, a, b)
    ensures Complete(d, {}, front + a + back) <==> Complete(d, {}, front + b + back)
  {
    hide TagsOk, RequiredBefore, ApplyAll, ShapedMessage, InRoom, RecordOk, Matches, Has;
    CompleteIs(d, front + a + back);
    CompleteIs(d, front + b + back);
    forall j | 0 <= j < |d.fields| && Tracked(d, j)
      ensures Has(front + a + back, d.fields[j].tag) <==> Has(front + b + back, d.fields[j].tag)
    {
      HasParts(front, a, back, d.fields[j].tag);
      HasParts(front, b, back, d.fields[j].tag);
      TagsDiffer(d, i, j);
      HasOwn(d.fields[i], a, d.fields[j].tag);
      HasOwn(d.fields[i], b, d.fields[j].tag);
    }
  }

  lemma HasOwn(f: Field, rs: seq<Record>, number: nat)
    requires OfField(f, rs)
    ensures Has(rs, number) <==> rs != [] && number == f.tag
  {
    hide RecordOk, Matches;
    assert rs != [] ==> rs[0].number == f.tag;
  }

  /** Stretches of the same effect may stand for one another anywhere in a message. */
  lemma Replaced(d: Descriptor, i: nat, front: seq<Record>, a: seq<Record>, b: seq<Record>, back: seq<Record>)
    requires TagsOk(d) && i < |d.fields| && SameEffect(d, i, a, b)
    requires RecordsOk(front) && RecordsOk(back) && AllMatch(d, front) && AllMatch(d, back)
    ensures Decode(d, Written(front + a + back)) == Decode(d, Written(front + b + back))
  {
    SameComplete(d, i, front, a, b, back);
    hide *;
    EffectParts(d, i, a, b);
    FieldMatches(d, i, a);
    FieldMatches(d, i, b);
    PartsMatch(d, front, a, back);
    PartsMatch(d, front, b, back);
    DefaultInRoom(d);
    MessageDecodes(d, front + a + back);
    MessageDecodes(d, front + b + back);
    AllInRoom(d, Default(d), front);
    ReplacedApply(d, i, Default(d), front, a, b, back);
  }

  lemma EffectParts(d: Descriptor, i: nat, a: seq<Record>, b: seq<Record>)
    requires i < |d.fields| && SameEffect(d, i, a, b)
    ensures OfField(d.fields[i], a) && OfField(d.fields[i], b)
  {
  }

  lemma ReplacedApply(d: Descriptor, i: nat, slots: seq<Slot>, front: seq<Record>, a: seq<Record>, b: seq<Record>, back: seq<Record>)
    requires i < |d.fields| && SameEffect(d, i, a, b) && ShapedMessage(d, slots) && InRoom(d, slots)
    ensures ApplyAll(d, slots, front + a + back) == ApplyAll(d, slots, front + b + back)
  {
    hide ApplyAll, ShapedMessage, InRoom, OfField;
    ApplyBoth(d, slots, front + a, back);
    ApplyBoth(d, slots, front + b, back);
    ApplyBoth(d, slots, front, a);
    ApplyBoth(d, slots, front, b);
    AllInRoom(d, slots, front);
  }

  // ------------------------------------------------------------------ arrays, messages and unions in pieces

  /** An array that comes in pieces, single items and packed ones, is the array that comes packed in one. */
  lemma ArrayInPieces(d: Descriptor, i: nat, ps: seq<Piece>, front: seq<Record>, back: seq<Record>)
    requires DescriptorOk(d) && i < |d.fields| && d.fields[i].htype.Repeated?
    requires forall k :: 0 <= k < |ps| ==> PieceOk(d.fields[i].ltype, ps[k])
    requires PieceOk(d.fields[i].ltype, Together(AllItems(ps)))
    requires RecordsOk(front) && RecordsOk(back) && AllMatch(d, front) && AllMatch(d, back)
    ensures Decode(d, Written(front + PieceRecords(d.fields[i], ps) + back)) ==
            Decode(d, Written(front + [PieceRecord(d.fields[i], Together(AllItems(ps)))] + back))
  {
    var f, whole := d.fields[i], Together(AllItems(ps));
    TagFits(d, i);
    DescriptorParts(d);
    hide TagsOk, PieceOk, PieceRecord, ApplyAll, ShapedMessage, AllItems, OfField, Decode, DescriptorOk;
    PiecesOfField(f, ps);
    PiecesOfField(f, [whole]);
    assert PieceRecords(f, [whole]) == [PieceRecord(f, whole)];
    OnePiece(whole);
    forall slots | ShapedMessage(d, slots) && InRoom(d, slots)
      ensures ApplyAll(d, slots, PieceRecords(f, ps)) == ApplyAll(d, slots, PieceRecords(f, [whole]))
    {
      ShapedAt(d, slots, i);
      PiecesApplied(d, slots, i, ps);
      PiecesApplied(d, slots, i, [whole]);
    }
    assert SameEffect(d, i, PieceRecords(f, ps), PieceRecords(f, [whole]));
    Replaced(d, i, front, PieceRecords(f, ps), PieceRecords(f, [whole]), back);
  }

  lemma TagFits(d: Descriptor, i: nat)
    requires DescriptorOk(d) && i < |d.fields|
    ensures 0 < d.fields[i].tag < 0x2000_0000
  {
  }

  lemma OnePiece(p: Piece)
    ensures AllItems([p]) == ItemsOf(p)
  {
    assert [p][1..] == [] && ItemsOf(p) + [] == ItemsOf(p);
  }

  lemma {:induction false} PiecesOfField(f: Field, ps: seq<Piece>)
    requires 0 < f.tag < 0x2000_0000 && f.htype.Repeated? && forall k :: 0 <= k < |ps| ==> PieceOk(f.ltype, ps[k])
    ensures OfField(f, PieceRecords(f, ps))
  {
    hide PieceOk, PieceRecord, Matches, RecordOk;
    if ps != [] {
      PieceOfField(f, ps[0]);
      PiecesOfField(f, ps[1..]);
    }
  }

  lemma PieceOfField(f: Field, p: Piece)
    requires 0 < f.tag < 0x2000_0000 && f.htype.Repeated? && PieceOk(f.ltype, p)
    ensures var r := PieceRecord(f, p); r.number == f.tag && RecordOk(r) && Matches(f, r.payload)
  {
    match p
    case Alone(v) => NumberBack(f.ltype, v, []); NumberShort(f.ltype, v); ValueIsPayload(f.ltype, v);
    case Together(vs) =>
  }

  lemma NumberShort(l: LType, v: Datum)
    requires Packable(l) && Typed(l, v)
    ensures Short(l, v)
  {
  }

  /** A message inside a message, by its records. */
  function MessageRecord(f: Field, rs: seq<Record>): Record {
    Record(f.tag, Delimited(Written(rs)))
  }

  /** The slot of a field that is not repeated. */
  function Held(f: Field, v: Datum): Slot {
    if f.htype.Required? then One(v) else Maybe(Some(v))
  }

  ghost predicate InnerRecords(f: Field, rs: seq<Record>) {
    && f.ltype.MessageType? && TagsOk(f.ltype.d) && RecordsOk(rs) && AllMatch(f.ltype.d, rs) && |Written(rs)| < WORD
  }

  /** What the records of a message inside do to the message that is there. */
  lemma InnerApplied(d: Descriptor, slots: seq<Slot>, i: nat, rs: seq<Record>)
    requires TagsOk(d) && ShapedMessage(d, slots) && i < |slots| == |d.fields| && InnerRecords(d.fields[i], rs)
    requires d.fields[i].htype.Required? || d.fields[i].htype.Optional?
    ensures var f := d.fields[i];
            var base := Start(f, slots[i]);
            && Shaped(f.ltype, base) && ShapedMessage(f.ltype.d, base.slots)
            && var s := if Complete(f.ltype.d, {}, rs) then ApplyAll(f.ltype.d, base.slots, rs) else None;
               Apply(d, slots, MessageRecord(f, rs)) ==
               if s.None? then None else Some(slots[i := Held(f, Message(s.value))])
  {
    hide DecodeFields, DecodeValue, Varint, TagsOk, ApplyAll, Complete, RecordsOk, AllMatch, Written, ShapedMessage, DefaultValue, PayloadBytes;
    var f := d.fields[i];
    ShapedAt(d, slots, i);
    DefaultValueShaped(f);
    FindIs(d, i, 0);
    var base := Start(f, slots[i]);
    MessageValue(f.ltype, base, Written(rs));
    RecordsDecode(f.ltype.d, base.slots, {}, rs);
  }

  lemma MessageValue(l: LType, base: Datum, b: Bytes)
    requires l.MessageType? && Shaped(l, base) && |b| < WORD
    ensures var s := DecodeFields(l.d, base.slots, {}, b);
            DecodeValue(l, base, PayloadBytes(Delimited(b))) == if s.None? then None else Some((Message(s.value), []))
  {
    hide DecodeFields, ShapedMessage, Varint, Sub, PayloadBytes;
    LengthLocal(b, []);
  }

  lemma CompleteBoth(d: Descriptor, a: seq<Record>, b: seq<Record>)
    requires Complete(d, {}, a)
    ensures Complete(d, {}, a + b)
  {
    hide Tracked, RequiredBefore, Has;
    CompleteIs(d, a);
    CompleteIs(d, a + b + []);
    assert a + b + [] == a + b;
    forall j | 0 <= j < |d.fields| && Tracked(d, j)
      ensures Has(a + b + [], d.fields[j].tag)
    {
      HasParts(a, b, [], d.fields[j].tag);
    }
  }

  /** Two records of one message do to it what one with the records of both does. */
  lemma TwiceApplied(d: Descriptor, slots: seq<Slot>, i: nat, a: seq<Record>, b: seq<Record>)
    requires TagsOk(d) && ShapedMessage(d, slots) && i < |slots| == |d.fields|
    requires InnerRecords(d.fields[i], a) && InnerRecords(d.fields[i], b) && InnerRecords(d.fields[i], a + b)
    requires d.fields[i].htype.Required? || d.fields[i].htype.Optional?
    ensures var f := d.fields[i];
            ApplyAll(d, slots, [MessageRecord(f, a), MessageRecord(f, b)]) ==
            if Complete(f.ltype.d, {}, a) && Complete(f.ltype.d, {}, b) then ApplyAll(d, slots, [MessageRecord(f, a + b)]) else None
  {
    hide Apply, ApplyAll, ShapedMessage, TagsOk, InnerRecords, Complete, MessageRecord, DefaultValue;
    var f := d.fields[i];
    IsMessage(f, a);
    var e, base := f.ltype.d, Start(f, slots[i]);
    InnerApplied(d, slots, i, a);
    InnerApplied(d, slots, i, a + b);
    TwoApplied(d, slots, MessageRecord(f, a), MessageRecord(f, b));
    OneApplied(d, slots, MessageRecord(f, a + b));
    ApplyBoth(e, base.slots, a, b);
    if Complete(e, {}, a) {
      CompleteBoth(e, a, b);
      var s := ApplyAll(e, base.slots, a);
      if s.Some? {
        var next := slots[i := Held(f, Message(s.value))];
        InnerApplied(d, next, i, b);
        var t := ApplyAll(e, s.value, b);
        if t.Some? {
          assert next[i := Held(f, Message(t.value))] == slots[i := Held(f, Message(t.value))];
        }
      }
    }
  }

  lemma IsMessage(f: Field, rs: seq<Record>)
    requires InnerRecords(f, rs)
    ensures f.ltype.MessageType?
  {
  }

  lemma OneApplied(d: Descriptor, slots: seq<Slot>, r: Record)
    requires ShapedMessage(d, slots)
    ensures ApplyAll(d, slots, [r]) == Apply(d, slots, r)
  {
    hide Apply, ShapedMessage;
    assert [r][1..] == [];
    var s := Apply(d, slots, r);
    assert s.Some? ==> ApplyAll(d, s.value, []) == s;
  }

  lemma MessageOfField(f: Field, rs: seq<Record>)
    requires 0 < f.tag < 0x2000_0000 && InnerRecords(f, rs)
    ensures RecordOk(MessageRecord(f, rs)) && Matches(f, MessageRecord(f, rs).payload)
  {
    hide Written, RecordsOk, AllMatch, TagsOk;
  }

  /** A message inside that comes twice is merged: it decodes as one with the records of
      both, if neither lacks a required field, and not at all otherwise. */
  lemma MessageInPieces(d: Descriptor, i: nat, a: seq<Record>, b: seq<Record>, front: seq<Record>, back: seq<Record>)
    requires DescriptorOk(d) && i < |d.fields| && (d.fields[i].htype.Required? || d.fields[i].htype.Optional?)
    requires InnerRecords(d.fields[i], a) && InnerRecords(d.fields[i], b) && InnerRecords(d.fields[i], a + b)
    requires RecordsOk(front) && RecordsOk(back) && AllMatch(d, front) && AllMatch(d, back)
    ensures var f := d.fields[i];
            Decode(d, Written(front + [MessageRecord(f, a), MessageRecord(f, b)] + back)) ==
            if Complete(f.ltype.d, {}, a) && Complete(f.ltype.d, {}, b) then Decode(d, Written(front + [MessageRecord(f, a + b)] + back))
            else None
  {
    var f := d.fields[i];
    IsMessage(f, a);
    TagFits(d, i);
    DescriptorParts(d);
    MessageOfField(f, a);
    MessageOfField(f, b);
    MessageOfField(f, a + b);
    var two, one := [MessageRecord(f, a), MessageRecord(f, b)], [MessageRecord(f, a + b)];
    hide TagsOk, ApplyAll, ShapedMessage, InRoom, RecordOk, Matches, RecordsOk, AllMatch, InnerRecords, Decode, DescriptorOk, MessageRecord, Complete;
    assert OfField(f, two) && OfField(f, one);
    forall slots | ShapedMessage(d, slots) && InRoom(d, slots)
      ensures ApplyAll(d, slots, two) == if Complete(f.ltype.d, {}, a) && Complete(f.ltype.d, {}, b) then ApplyAll(d, slots, one) else None
    {
      ShapedAt(d, slots, i);
      TwiceApplied(d, slots, i, a, b);
    }
    if Complete(f.ltype.d, {}, a) && Complete(f.ltype.d, {}, b) {
      assert SameEffect(d, i, two, one);
      Replaced(d, i, front, two, one, back);
    } else {
      NoEffect(d, i, front, two, back);
    }
  }

  /** A stretch that no message can take spoils the whole. */
  lemma NoEffect(d: Descriptor, i: nat, front: seq<Record>, a: seq<Record>, back: seq<Record>)
    requires TagsOk(d) && i < |d.fields| && OfField(d.fields[i], a)
    requires RecordsOk(front) && RecordsOk(back) && AllMatch(d, front) && AllMatch(d, back)
    requires forall slots :: ShapedMessage(d, slots) && InRoom(d, slots) ==> ApplyAll(d, slots, a) == None
    ensures Decode(d, Written(front + a + back)) == None
  {
    hide ApplyAll, ShapedMessage, InRoom, OfField, RecordsOk, AllMatch, Complete, TagsOk, Decode, Written, Default;
    FieldMatches(d, i, a);
    PartsMatch(d, front, a, back);
    DefaultInRoom(d);
    MessageDecodes(d, front + a + back);
    AllInRoom(d, Default(d), front);
    ApplyBoth(d, Default(d), front + a, back);
    ApplyBoth(d, Default(d), front, a);
  }

  /** A member of a union starts afresh, whatever was there. */
  lemma MemberAlone(f: Field, s: Slot, t: Slot, p: Payload)
    requires f.htype.OneOf? && ShapedSlot(f, s) && ShapedSlot(f, t)
    ensures NewSlot(f, s, p) == NewSlot(f, t, p)
    ensures NewSlot(f, s, p).Some? ==> NewSlot(f, s, p).value.Maybe? && NewSlot(f, s, p).value.o.Some?
  {
    hide DecodeValue, DefaultValue, PayloadBytes, Shaped;
    DefaultValueShaped(f);
  }

  /** Whether a payload is a value of a member of a union. */
  predicate MemberTakes(f: Field, p: Payload)
    requires f.htype.OneOf?
  {
    NewSlot(f, Maybe(None), p).Some?
  }

  lemma MembersApplied(d: Descriptor, slots: seq<Slot>, i: nat, p: Payload, j: nat, q: Payload)
    requires TagsOk(d) && ShapedMessage(d, slots) && i < |d.fields| && j < |d.fields| && SameUnion(d.fields[i], d.fields[j])
    ensures ApplyAll(d, slots, [Record(d.fields[i].tag, p), Record(d.fields[j].tag, q)]) ==
            if MemberTakes(d.fields[i], p) then ApplyAll(d, slots, [Record(d.fields[j].tag, q)]) else None
  {
    hide ShapedMessage, TagsOk, Apply, ApplyAll, NewSlot;
    var f, g := d.fields[i], d.fields[j];
    ShapedAt(d, slots, i);
    ShapedAt(d, slots, j);
    MemberAlone(f, slots[i], Maybe(None), p);
    ApplyIs(d, slots, i, p);
    ApplyIs(d, slots, j, q);
    TwoApplied(d, slots, Record(f.tag, p), Record(g.tag, q));
    OneApplied(d, slots, Record(g.tag, q));
    var s := Apply(d, slots, Record(f.tag, p));
    if s.Some? {
      ShapedAt(d, s.value, j);
      ApplyIs(d, s.value, j, q);
      MemberAlone(g, slots[j], s.value[j], q);
      var n, m := NewSlot(f, slots[i], p), NewSlot(g, slots[j], q);
      if m.Some? {
        LastChange(d, slots, i, n.value, j, m.value);
      }
    }
  }

  lemma LastChange(d: Descriptor, slots: seq<Slot>, i: nat, s: Slot, j: nat, t: Slot)
    requires |slots| == |d.fields| && i < |slots| && j < |slots| && SameUnion(d.fields[i], d.fields[j])
    ensures Changed(d, Changed(d, slots, i, s), j, t) == Changed(d, slots, j, t)
  {
  }

  /** Of two members of a union that come one after the other the last one stays, by
      itself: a message in a union is not merged. */
  lemma LastMemberStays(d: Descriptor, i: nat, p: Payload, j: nat, q: Payload, front: seq<Record>, back: seq<Record>)
    requires DescriptorOk(d) && i < |d.fields| && j < |d.fields| && SameUnion(d.fields[i], d.fields[j])
    requires PayloadOk(p) && Matches(d.fields[i], p) && PayloadOk(q) && Matches(d.fields[j], q)
    requires RecordsOk(front) && RecordsOk(back) && AllMatch(d, front) && AllMatch(d, back)
    ensures Decode(d, Written(front + [Record(d.fields[i].tag, p), Record(d.fields[j].tag, q)] + back)) ==
            if MemberTakes(d.fields[i], p) then Decode(d, Written(front + [Record(d.fields[j].tag, q)] + back)) else None
  {
    TagFits(d, i);
    TagFits(d, j);
    DescriptorParts(d);
    var a, b := Record(d.fields[i].tag, p), Record(d.fields[j].tag, q);
    hide *;
    RecordIs(d, i, a);
    RecordIs(d, j, b);
    TwoMatch(d, a, b);
    PartsMatch(d, front, [a, b], back);
    PartsMatch(d, front, [b], back);
    DefaultInRoom(d);
    MessageDecodes(d, front + [a, b] + back);
    MessageDecodes(d, front + [b] + back);
    ApplyBoth(d, Default(d), front + [a, b], back);
    ApplyBoth(d, Default(d), front + [b], back);
    ApplyBoth(d, Default(d), front, [a, b]);
    ApplyBoth(d, Default(d), front, [b]);
    var s := ApplyAll(d, Default(d), front);
    if s.Some? {
      MembersApplied(d, s.value, i, p, j, q);
    }
    NotRequired(d, i, front, a, b, back);
  }

  lemma RecordIs(d: Descriptor, i: nat, r: Record)
    requires TagsOk(d) && i < |d.fields| && r.number == d.fields[i].tag && 0 < r.number < 0x2000_0000
    requires PayloadOk(r.payload) && Matches(d.fields[i], r.payload)
    ensures RecordsOk([r]) && AllMatch(d, [r])
  {
    hide PayloadOk, Matches, TagsOk;
    forall j | 0 <= j < |d.fields| && d.fields[j].tag == r.number
      ensures Matches(d.fields[j], r.payload)
    {
      TagsDiffer(d, i, j);
    }
  }

  lemma TwoMatch(d: Descriptor, a: Record, b: Record)
    requires RecordsOk([a]) && RecordsOk([b]) && AllMatch(d, [a]) && AllMatch(d, [b])
    ensures RecordsOk([a, b]) && AllMatch(d, [a, b])
  {
    hide RecordOk, Matches;
    assert [a][0] == a && [b][0] == b;
  }

  lemma NotRequired(d: Descriptor, i: nat, front: seq<Record>, a: Record, b: Record, back: seq<Record>)
    requires TagsOk(d) && i < |d.fields| && d.fields[i].htype.OneOf? && a.number == d.fields[i].tag
    ensures Complete(d, {}, front + [a, b] + back) <==> Complete(d, {}, front + [b] + back)
  {
    hide TagsOk, RequiredBefore;
    CompleteIs(d, front + [a, b] + back);
    CompleteIs(d, front + [b] + back);
    forall j | 0 <= j < |d.fields| && Tracked(d, j)
      ensures Has(front + [a, b] + back, d.fields[j].tag) <==> Has(front + [b] + back, d.fields[j].tag)
    {
      TagsDiffer(d, i, j);
      HasParts(front, [a, b], back, d.fields[j].tag);
      HasParts(front, [b], back, d.fields[j].tag);
      assert [b][0] == b && [a, b][1] == b && [a, b][0] == a;
    }
  }
}
