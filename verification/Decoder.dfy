/** The decoder of nanopb (pb_decode.c, pb_common.c): what any bytes decode to, errors
    included, and the streams and iterators that do it. */
module Decoders {
  import opened Keys
  import opened Coding
  import opened Messages

  // ------------------------------------------------------------------ numbers

  function Pow2(k: nat): (r: nat)
    ensures r > 0
  {
    if k == 0 then 1 else 2 * Pow2(k - 1)
  }

  /** The bits that are set in either number. */
  function BitOr(a: nat, b: nat): nat
    decreases a + b
  {
    if a == 0 then b else if b == 0 then a else
    (if a % 2 == 1 || b % 2 == 1 then 1 else 0) + 2 * BitOr(a / 2, b / 2)
  }

  /** pb_decode_varint32_eof.  Bits beyond the 32nd must be zero, or extend the sign; the
      bit position is kept in eight bits. */
  function Varint32(b: Bytes): (r: Option<(nat, Bytes)>)
    ensures r.Some? ==> |r.value.1| < |b|
  {
    if b == [] then None
    else if b[0] < 128 then Some((b[0], b[1..]))
    else More32(b[1..], b[0] % 128, 7)
  }

  function More32(b: Bytes, result: nat, bitpos: nat): (r: Option<(nat, Bytes)>)
    ensures r.Some? ==> |r.value.1| < |b|
    decreases |b|
  {
    if b == [] || Overflows(b[0], result, bitpos) then None else
    var result' := if bitpos >= 32 then result else BitOr(result, ((b[0] % 128) * Pow2(bitpos)) % WORD);
    var bitpos' := (bitpos + 7) % 256;
    if b[0] >= 128 then More32(b[1..], result', bitpos')
    else if bitpos' == 35 && b[0] >= 16 then None
    else Some((result', b[1..]))
  }

  predicate Overflows(byte: Byte, result: nat, bitpos: nat) {
    bitpos >= 32 && byte % 128 != 0 && (result < 0x8000_0000 || byte != if bitpos < 63 then 0xFF else 0x01)
  }

  /** pb_decode_varint: up to ten bytes; bits beyond the 64th are lost. */
  function Varint64(b: Bytes): (r: Option<(nat, Bytes)>)
    ensures r.Some? ==> |r.value.1| < |b| && r.value.0 < LONG
  {
    var v := FromVarint(b, 10);
    if v.None? then None else Some((v.value.0 % LONG, b[v.value.1..]))
  }

  lemma Varint64None(b: Bytes, p: nat, weight: nat, total: nat)
    requires Reading(b, 10, p, weight, total)
    ensures p == 10 || p == |b| ==> Varint64(b).None?
  {
    if p == 10 || p == |b| {
      ReadingNone(b, 10, p, weight, total);
    }
  }

  lemma Varint64Last(b: Bytes, p: nat, weight: nat, total: nat)
    requires Reading(b, 10, p, weight, total) && p < 10 && p < |b| && b[p] < 128
    ensures Varint64(b) == Some((Wrap(total + Part(b[p] % 128, weight), LONG), b[p + 1..]))
  {
    hide Reading, FromVarint, Part;
    LastBits(b[p]);
    ReadingLast(b, 10, p, weight, total);
  }

  /** The low bits of a number, read as two's complement. */
  function Signed(u: nat, w: Width): int {
    var low := u % (2 * Half(w));
    if low < Half(w) then low else low - 2 * Half(w)
  }

  /** pb_decode_svarint. */
  function UnZigZag(u: nat): int
    requires u < LONG
  {
    Signed(if u % 2 == 1 then LONG - 1 - u / 2 else u / 2, 64)
  }

  function Take(b: Bytes, n: nat): (r: Option<(Bytes, Bytes)>)
    ensures r.Some? ==> |r.value.0| == n && b == r.value.0 + r.value.1
  {
    if |b| < n then None else Some((b[..n], b[n..]))
  }

  // ------------------------------------------------------------------ skipping

  function SkipVarint(b: Bytes): (r: Option<Bytes>)
    ensures r.Some? ==> |r.value| < |b|
  {
    if b == [] then None else if b[0] < 128 then Some(b[1..]) else SkipVarint(b[1..])
  }

  /** What a length says, and what follows it. */
  function Sub(b: Bytes): (r: Option<(Bytes, Bytes)>)
    ensures r.Some? ==> |r.value.0| + |r.value.1| < |b|
  {
    var size := Varint32(b);
    if size.None? then None else Take(size.value.1, size.value.0)
  }

  /** pb_skip_field. */
  function SkipField(wireType: nat, b: Bytes): (r: Option<Bytes>)
    ensures r.Some? ==> |r.value| <= |b|
  {
    if wireType == WT_VARINT then SkipVarint(b)
    else
      var r := if wireType == WT_64BIT then Take(b, 8) else if wireType == WT_STRING then Sub(b)
               else if wireType == WT_32BIT then Take(b, 4) else None;
      if r.None? then None else Some(r.value.1)
  }

  // ------------------------------------------------------------------ messages in progress

  /** A value that a message field can start from. */
  predicate Shaped(l: LType, v: Datum)
    decreases l, 0
  {
    l.MessageType? ==> v.Message? && ShapedMessage(l.d, v.slots)
  }

  predicate ShapedSlot(f: Field, s: Slot)
    decreases f, 0
  {
    match f.htype
    case Required => s.One? && Shaped(f.ltype, s.v)
    case Optional | OneOf(_) => s.Maybe? && (s.o.Some? ==> Shaped(f.ltype, s.o.value))
    case Repeated(_) => s.Many?
  }

  predicate ShapedMessage(d: Descriptor, slots: seq<Slot>)
    decreases d, 0
  {
    |slots| == |d.fields| && forall i :: 0 <= i < |d.fields| ==> ShapedSlot(d.fields[i], slots[i])
  }

  lemma {:induction false} DefaultShaped(d: Descriptor)
    ensures ShapedMessage(d, Default(d))
    decreases d, 0
  {
    forall i | 0 <= i < |d.fields|
      ensures ShapedSlot(d.fields[i], Default(d)[i])
    {
      DefaultValueShaped(d.fields[i]);
    }
  }

  lemma {:induction false} DefaultValueShaped(f: Field)
    ensures Shaped(f.ltype, DefaultValue(f))
    decreases f, 0
  {
    if f.ltype.MessageType? {
      DefaultShaped(f.ltype.d);
    }
  }

  /** How many of the first n fields are required. */
  function RequiredBefore(d: Descriptor, n: nat): nat
    requires n <= |d.fields|
  {
    if n == 0 then 0 else RequiredBefore(d, n - 1) + if d.fields[n - 1].htype.Required? then 1 else 0
  }

  const MAX_REQUIRED_FIELDS := 64

  /** All required fields that are kept track of have been seen. */
  predicate AllSeen(d: Descriptor, seen: set<nat>) {
    forall k :: 0 <= k < RequiredBefore(d, |d.fields|) && k < MAX_REQUIRED_FIELDS ==> k in seen
  }

  function See(d: Descriptor, i: nat, seen: set<nat>): set<nat>
    requires i < |d.fields|
  {
    var k := RequiredBefore(d, i);
    if d.fields[i].htype.Required? && k < MAX_REQUIRED_FIELDS then seen + {k} else seen
  }

  /** The field with a tag. */
  function Find(d: Descriptor, tag: nat, from: nat): (r: Option<nat>)
    requires from <= |d.fields|
    ensures r.Some? ==> from <= r.value < |d.fields| && d.fields[r.value].tag == tag
    ensures r.None? ==> forall i :: from <= i < |d.fields| ==> d.fields[i].tag != tag
    decreases |d.fields| - from
  {
    if from == |d.fields| then None else if d.fields[from].tag == tag then Some(from) else Find(d, tag, from + 1)
  }

  /** The member of a union takes the place of the others. */
  function Choose(d: Descriptor, slots: seq<Slot>, i: nat, v: Datum): (r: seq<Slot>)
    requires |slots| == |d.fields| && i < |slots|
    ensures |r| == |slots|
  {
    seq(|slots|, j requires 0 <= j < |slots| =>
      if j == i then Maybe(Some(v)) else if SameUnion(d.fields[i], d.fields[j]) then Maybe(None) else slots[j])
  }

  // ------------------------------------------------------------------ what bytes decode to

  /** The decoders of PB_DECODERS; a message starts from `base`. */
  function DecodeValue(l: LType, base: Datum, b: Bytes): (r: Option<(Datum, Bytes)>)
    requires Shaped(l, base)
    ensures r.Some? ==> Shaped(l, r.value.0) && |r.value.1| < |b|
    decreases |b|, 1
  {
    match l
    case BoolType =>
      var v := Varint32(b);
      if v.None? then None else Some((Num(if v.value.0 != 0 then 1 else 0), v.value.1))
    case VarintType(w) =>
      var v := Varint64(b);
      if v.None? then None else
      var n := if w == 64 then Signed(v.value.0, 64) else Signed(v.value.0, 32);
      if InSigned(n, w) then Some((Num(n), v.value.1)) else None
    case UVarintType(w) =>
      var v := Varint64(b);
      if v.None? || v.value.0 >= 2 * Half(w) then None else Some((Num(v.value.0), v.value.1))
    case SVarintType(w) =>
      var v := Varint64(b);
      if v.None? then None else
      var n := UnZigZag(v.value.0);
      if InSigned(n, w) then Some((Num(n), v.value.1)) else None
    case Fixed32Type =>
      var v := Take(b, 4);
      if v.None? then None else Some((Num(FromFixed(v.value.0)), v.value.1))
    case Fixed64Type =>
      var v := Take(b, 8);
      if v.None? then None else Some((Num(FromFixed(v.value.0)), v.value.1))
    case BytesType(room) =>
      var size := Varint32(b);
      if size.None? || size.value.0 > room then None else
      var v := Take(size.value.1, size.value.0);
      if v.None? then None else Some((Blob(v.value.0), v.value.1))
    case StringType(n) =>
      var size := Varint32(b);
      if size.None? || size.value.0 + 1 > n then None else
      var v := Take(size.value.1, size.value.0);
      if v.None? then None else Some((Blob(v.value.0), v.value.1))
    case FixedBytesType(n) =>
      var size := Varint32(b);
      if size.None? then None else
      if size.value.0 == 0 then Some((Blob(seq(n, _ => 0)), size.value.1)) else
      if size.value.0 != n then None else
      var v := Take(size.value.1, n);
      if v.None? then None else Some((Blob(v.value.0), v.value.1))
    case MessageType(d) =>
      var v := Sub(b);
      if v.None? then None else
      var slots := DecodeFields(d, base.slots, {}, v.value.0);
      if slots.None? then None else Some((Message(slots.value), v.value.1))
  }

  /** The items of a packed array, as far as there is room. */
  function DecodePacked(l: LType, items: seq<Datum>, max: nat, b: Bytes): (r: Option<seq<Datum>>)
    requires Packable(l)
    decreases |b|, 2
  {
    if b == [] then Some(items) else if |items| >= max then None else
    var v := DecodeValue(l, Num(0), b);
    if v.None? then None else DecodePacked(l, items + [v.value.0], max, v.value.1)
  }

  /** decode_static_field.  The wire type only tells a packed array from one item. */
  function DecodeField(d: Descriptor, slots: seq<Slot>, i: nat, wireType: nat, b: Bytes): (r: Option<(seq<Slot>, Bytes)>)
    requires ShapedMessage(d, slots) && i < |slots|
    ensures r.Some? ==> ShapedMessage(d, r.value.0) && |r.value.1| < |b|
    decreases |b|, 2
  {
    var f, s := d.fields[i], slots[i];
    assert ShapedSlot(f, s);
    DefaultValueShaped(f);
    match f.htype
    case Required =>
      var v := DecodeValue(f.ltype, s.v, b);
      if v.None? then None else Some((slots[i := One(v.value.0)], v.value.1))
    case Optional =>
      var v := DecodeValue(f.ltype, if s.o.Some? then s.o.value else DefaultValue(f), b);
      if v.None? then None else Some((slots[i := Maybe(Some(v.value.0))], v.value.1))
    case OneOf(_) =>
      var v := DecodeValue(f.ltype, DefaultValue(f), b);
      if v.None? then None else Some((Choose(d, slots, i, v.value.0), v.value.1))
    case Repeated(max) =>
      if wireType == WT_STRING && Packable(f.ltype) then
        var v := Sub(b);
        if v.None? then None else
        var items := DecodePacked(f.ltype, s.items, max, v.value.0);
        if items.None? then None else Some((slots[i := Many(items.value)], v.value.1))
      else if |s.items| >= max then None else
        var v := DecodeValue(f.ltype, DefaultValue(f), b);
        if v.None? then None else Some((slots[i := Many(s.items + [v.value.0])], v.value.1))
  }

  /** pb_decode_noinit: fields in any order, until the bytes end or a tag is zero; in the
      end all required fields must have been there.  A message type without fields takes
      a zero field number for its terminator, which looks like a required bool. */
  function DecodeFields(d: Descriptor, slots: seq<Slot>, seen: set<nat>, b: Bytes): (r: Option<seq<Slot>>)
    requires ShapedMessage(d, slots)
    ensures r.Some? ==> ShapedMessage(d, r.value)
    decreases |b|, 0
  {
    if b == [] then Ended(d, slots, seen) else
    var t := Varint32(b);
    if t.None? then None else
    if t.value.0 == 0 then Ended(d, slots, seen) else
    var tag, wireType := t.value.0 / 8, t.value.0 % 8;
    var i := Find(d, tag, 0);
    if i.None? then
      var rest := if d.fields == [] && tag == 0 then SkipBool(t.value.1) else SkipField(wireType, t.value.1);
      if rest.None? then None else DecodeFields(d, slots, seen, rest.value)
    else
      var r := DecodeField(d, slots, i.value, wireType, t.value.1);
      if r.None? then None else DecodeFields(d, r.value.0, See(d, i.value, seen), r.value.1)
  }

  function Ended(d: Descriptor, slots: seq<Slot>, seen: set<nat>): Option<seq<Slot>> {
    if AllSeen(d, seen) then Some(slots) else None
  }

  function SkipBool(b: Bytes): (r: Option<Bytes>)
    ensures r.Some? ==> |r.value| < |b|
  {
    var v := Varint32(b);
    if v.None? then None else Some(v.value.1)
  }

  /** pb_decode. */
  function Decode(d: Descriptor, b: Bytes): Option<seq<Slot>> {
    DefaultShaped(d);
    DecodeFields(d, Default(d), {}, b)
  }

  // ------------------------------------------------------------------ input streams

  class IStream {
    const source: Bytes
    var pos: nat
    var bytesLeft: nat

    ghost predicate Ok()
      reads this
    {
      pos + bytesLeft <= |source|
    }

    function Rest(): Bytes
      requires Ok()
      reads this
    {
      source[pos..pos + bytesLeft]
    }

    /** The stream goes on where the function that describes the step says. */
    ghost predicate Read(ok: bool, end: nat, rest: Option<Bytes>)
      reads this
    {
      Ok() && (ok <==> rest.Some?) && (ok ==> pos + bytesLeft == end && Rest() == rest.value)
    }

    constructor (source: Bytes, pos: nat, bytesLeft: nat)
      requires pos + bytesLeft <= |source|
      ensures Ok() && this.source == source && this.pos == pos && this.bytesLeft == bytesLeft
    {
      this.source, this.pos, this.bytesLeft := source, pos, bytesLeft;
    }

    /** pb_read. */
    method ReadBytes(count: nat) returns (ok: bool, buf: Bytes)
      requires Ok()
      modifies this
      ensures Read(ok, old(pos + bytesLeft), RestOf(Take(old(Rest()), count)))
      ensures ok ==> buf == Take(old(Rest()), count).value.0
      ensures bytesLeft <= old(bytesLeft)
    {
      if bytesLeft < count {
        return false, [];
      }
      buf := source[pos..pos + count];
      assert Rest()[..count] == buf && Rest()[count..] == source[pos + count..pos + bytesLeft];
      pos, bytesLeft := pos + count, bytesLeft - count;
      return true, buf;
    }

    /** pb_readbyte. */
    method ReadByte() returns (ok: bool, byte: Byte)
      requires Ok()
      modifies this
      ensures Read(ok, old(pos + bytesLeft), if old(Rest()) == [] then None else Some(old(Rest())[1..]))
      ensures ok ==> byte == old(Rest())[0]
      ensures bytesLeft <= old(bytesLeft)
    {
      if bytesLeft == 0 {
        return false, 0;
      }
      byte := source[pos];
      assert Rest()[1..] == source[pos + 1..pos + bytesLeft];
      pos, bytesLeft := pos + 1, bytesLeft - 1;
      return true, byte;
    }

    /** pb_decode_varint32. */
    method DecodeVarint32() returns (ok: bool, value: nat)
      requires Ok()
      modifies this
      ensures Read(ok, old(pos + bytesLeft), RestOf(Varint32(old(Rest()))))
      ensures ok ==> value == Varint32(old(Rest())).value.0
      ensures bytesLeft <= old(bytesLeft)
    {
      ghost var end, goal := pos + bytesLeft, Varint32(Rest());
      var byte;
      ok, byte := ReadByte();
      if !ok || byte < 128 {
        return ok, byte;
      }
      var result: nat, bitpos: nat := byte % 128, 7;
      while true
        invariant Ok() && pos + bytesLeft == end && bytesLeft <= old(bytesLeft)
        invariant goal == More32(Rest(), result, bitpos)
        decreases bytesLeft
      {
        ok, byte := ReadByte();
        if !ok {
          return false, 0;
        }
        if bitpos >= 32 {
          var signExtension := if bitpos < 63 then 0xFF else 0x01;
          if byte % 128 != 0 && (result < 0x8000_0000 || byte != signExtension) {
            return false, 0;
          }
        } else {
          result := BitOr(result, ((byte % 128) * Pow2(bitpos)) % WORD);
        }
        bitpos := (bitpos + 7) % 256;
        if byte < 128 {
          break;
        }
      }
      if bitpos == 35 && byte >= 16 {
        return false, 0;
      }
      return true, result;
    }

    /** pb_decode_varint. */
    method DecodeVarint() returns (ok: bool, value: nat)
      requires Ok()
      modifies this
      ensures Read(ok, old(pos + bytesLeft), RestOf(Varint64(old(Rest()))))
      ensures ok ==> value == Varint64(old(Rest())).value.0
      ensures bytesLeft <= old(bytesLeft)
    {
      hide Reading, FromVarint, Varint64, Part, Wrap;
      WrapNothing(LONG);
      ghost var b, end, p: nat, total: nat := Rest(), pos + bytesLeft, 0, 0;
      var result: nat, weight: nat, bitpos: nat := 0, 1, 0;
      ReadingStart(b, 10);
      assert b[0..] == b;
      while true
        invariant Ok() && pos + bytesLeft == end && bytesLeft <= old(bytesLeft)
        invariant p <= |b| && p <= 10 && bitpos == 7 * p && Rest() == b[p..]
        invariant result == Wrap(total, LONG) && Reading(b, 10, p, weight, total)
        decreases bytesLeft
      {
        Varint64None(b, p, weight, total);
        if bitpos >= 64 {
          return false, 0;
        }
        var byte;
        ok, byte := ReadByte();
        if !ok {
          return false, 0;
        }
        assert b[p..][1..] == b[p + 1..];
        var bits := Part(byte % 128, weight);
        Wraps(total, bits, LONG);
        if byte < 128 {
          Varint64Last(b, p, weight, total);
          return true, Wrap(result + bits, LONG);
        }
        ReadingMore(b, 10, p, weight, total);
        result, weight, bitpos := Wrap(result + bits, LONG), weight * 128, bitpos + 7;
        total, p := total + bits, p + 1;
      }
    }

    /** pb_skip_varint. */
    method PassVarint() returns (ok: bool)
      requires Ok()
      modifies this
      ensures Read(ok, old(pos + bytesLeft), SkipVarint(old(Rest()))) && bytesLeft <= old(bytesLeft)
    {
      while true
        invariant Ok() && pos + bytesLeft == old(pos + bytesLeft) && bytesLeft <= old(bytesLeft)
        invariant SkipVarint(Rest()) == SkipVarint(old(Rest()))
        decreases bytesLeft
      {
        var byte;
        ok, byte := ReadByte();
        if !ok || byte < 128 {
          return;
        }
      }
    }

    /** pb_skip_field. */
    method PassField(wireType: nat) returns (ok: bool)
      requires Ok()
      modifies this
      ensures Read(ok, old(pos + bytesLeft), SkipField(wireType, old(Rest()))) && bytesLeft <= old(bytesLeft)
    {
      hide Varint32, SkipVarint;
      if wireType == WT_VARINT {
        ok := PassVarint();
      } else if wireType == WT_64BIT {
        var buf;
        ok, buf := ReadBytes(8);
      } else if wireType == WT_STRING {
        var length, buf;
        ok, length := DecodeVarint32();
        if ok {
          ok, buf := ReadBytes(length);
        }
      } else if wireType == WT_32BIT {
        var buf;
        ok, buf := ReadBytes(4);
      } else {
        ok := false;
      }
    }

    /** pb_make_string_substream: the part that a length says, which this stream skips
        once the part is closed. */
    method MakeSubstream() returns (ok: bool, sub: IStream)
      requires Ok()
      modifies this
      ensures Ok() && fresh(sub) && sub.Ok() && sub.source == source && sub.bytesLeft < |source| + 1
      ensures ok <==> Sub(old(Rest())).Some?
      ensures ok ==>
                && sub.Rest() == Sub(old(Rest())).value.0
                && sub.pos + sub.bytesLeft + bytesLeft == old(pos + bytesLeft)
                && source[sub.pos + sub.bytesLeft..sub.pos + sub.bytesLeft + bytesLeft] == Sub(old(Rest())).value.1
                && sub.bytesLeft < old(bytesLeft)
      ensures bytesLeft <= old(bytesLeft)
    {
      hide Varint32;
      var size;
      ok, size := DecodeVarint32();
      if !ok {
        sub := new IStream(source, 0, 0);
        return;
      }
      if bytesLeft < size {
        sub := new IStream(source, 0, 0);
        return false, sub;
      }
      sub := new IStream(source, pos, size);
      assert Rest()[..size] == sub.Rest();
      assert Rest()[size..] == source[pos + size..pos + bytesLeft];
      bytesLeft := bytesLeft - size;
    }

    /** pb_close_string_substream. */
    method CloseSubstream(sub: IStream) returns (ok: bool)
      requires Ok() && sub.Ok() && sub.source == source && sub != this
      requires sub.pos + sub.bytesLeft + bytesLeft <= |source|
      modifies this, sub
      ensures ok && Ok() && pos == old(sub.pos + sub.bytesLeft) && bytesLeft == old(bytesLeft)
    {
      if sub.bytesLeft > 0 {
        var buf;
        ok, buf := sub.ReadBytes(sub.bytesLeft);
        if !ok {
          return;
        }
      }
      pos := sub.pos;
      return true;
    }
  }

  function RestOf<T>(r: Option<(T, Bytes)>): Option<Bytes> {
    if r.None? then None else Some(r.value.1)
  }

  // ------------------------------------------------------------------ field iterators

  /** The field numbers are different and not zero, down to the messages inside. */
  predicate TagsOk(d: Descriptor)
    decreases d
  {
    && (forall i :: 0 <= i < |d.fields| ==> 0 < d.fields[i].tag)
    && (forall i, j :: 0 <= i < j < |d.fields| ==> d.fields[i].tag != d.fields[j].tag)
    && (forall i :: 0 <= i < |d.fields| && d.fields[i].ltype.MessageType? ==> TagsOk(d.fields[i].ltype.d))
  }

  class FieldIter {
    const d: Descriptor
    var pos: nat
    var requiredIndex: nat

    ghost predicate Ok()
      reads this
    {
      && pos <= |d.fields| && (d.fields != [] ==> pos < |d.fields|)
      && requiredIndex == RequiredBefore(d, pos)
    }

    /** pb_field_iter_begin. */
    constructor (d: Descriptor)
      ensures Ok() && this.d == d && pos == 0
    {
      this.d, pos, requiredIndex := d, 0, 0;
    }

    /** pb_field_iter_next: false when it is back at the first field. */
    method Next() returns (more: bool)
      requires Ok()
      modifies this
      ensures Ok() && (more <==> old(pos) + 1 < |d.fields|)
      ensures pos == if old(pos) + 1 < |d.fields| then old(pos) + 1 else 0
    {
      if d.fields == [] {
        return false;
      }
      var prev := d.fields[pos];
      pos := pos + 1;
      if pos == |d.fields| {
        pos, requiredIndex := 0, 0;
        return false;
      }
      if prev.htype.Required? {
        requiredIndex := requiredIndex + 1;
      }
      return true;
    }

    /** pb_field_iter_find goes on from where it is and wraps around. */
    method FindTag(tag: nat) returns (found: bool)
      requires Ok() && TagsOk(d)
      modifies this
      ensures Ok()
      ensures d.fields == [] ==> (found <==> tag == 0)
      ensures d.fields != [] ==> (found <==> Find(d, tag, 0).Some?) && (found ==> pos == Find(d, tag, 0).value)
    {
      var start := pos;
      ghost var wrapped := false;
      while true
        invariant Ok() && (wrapped ==> pos <= start && d.fields != [])
        invariant !wrapped ==> start <= pos && forall q :: start <= q < pos ==> d.fields[q].tag != tag
        invariant wrapped ==> forall q :: start <= q < |d.fields| || 0 <= q < pos ==> q < |d.fields| && d.fields[q].tag != tag
        invariant wrapped ==> pos < start
        decreases !wrapped, |d.fields| - pos
      {
        if d.fields == [] {
          return tag == 0;
        }
        if d.fields[pos].tag == tag {
          return true;
        }
        var more := Next();
        wrapped := wrapped || !more;
        if pos == start {
          return false;
        }
      }
    }

    /** The number of required fields, found by going on to the last field. */
    method CountRequired() returns (count: nat)
      requires Ok()
      modifies this
      ensures Ok() && count == RequiredBefore(d, |d.fields|)
    {
      var last: nat := pos;
      count := requiredIndex;
      var more := true;
      while more
        invariant Ok() && last <= |d.fields| && count == RequiredBefore(d, last)
        invariant !more ==> d.fields == [] || last == |d.fields| - 1
        decreases more, |d.fields| - pos
      {
        count, last := requiredIndex, pos;
        more := Next();
      }
      if d.fields != [] && d.fields[last].htype.Required? {
        count := count + 1;
      }
    }
  }

  // ------------------------------------------------------------------ decoding messages

  /** The decoders of PB_DECODERS. */
  method DecodeOne(stream: IStream, l: LType, base: Datum) returns (ok: bool, v: Datum)
    requires stream.Ok() && Shaped(l, base) && (l.MessageType? ==> TagsOk(l.d))
    modifies stream
    ensures stream.Read(ok, old(stream.pos + stream.bytesLeft), RestOf(DecodeValue(l, base, old(stream.Rest()))))
    ensures ok ==> v == DecodeValue(l, base, old(stream.Rest())).value.0
    ensures stream.bytesLeft <= old(stream.bytesLeft)
    decreases stream.bytesLeft, 1
  {
    hide Varint32, Varint64;
    v := base;
    match l
    case BoolType =>
      var n;
      ok, n := stream.DecodeVarint32();
      v := Num(if n != 0 then 1 else 0);
    case VarintType(w) =>
      var u;
      ok, u := stream.DecodeVarint();
      if ok {
        var n := if w == 64 then Signed(u, 64) else Signed(u, 32);
        ok, v := InSigned(n, w), Num(n);
      }
    case UVarintType(w) =>
      var u;
      ok, u := stream.DecodeVarint();
      ok, v := ok && u < 2 * Half(w), Num(u);
    case SVarintType(w) =>
      var u;
      ok, u := stream.DecodeVarint();
      if ok {
        var n := UnZigZag(u);
        ok, v := InSigned(n, w), Num(n);
      }
    case Fixed32Type =>
      var bytes;
      ok, bytes := stream.ReadBytes(4);
      v := Num(FromFixed(bytes));
    case Fixed64Type =>
      var bytes;
      ok, bytes := stream.ReadBytes(8);
      v := Num(FromFixed(bytes));
    case BytesType(room) => ok, v := DecodeBlob(stream, room);
    case StringType(n) =>
      // space for the terminator
      ok, v := DecodeBlob(stream, n - 1);
    case FixedBytesType(n) => ok, v := DecodeFixedBytes(stream, n);
    case MessageType(d) =>
      var slots;
      ok, slots := DecodeSubmessage(stream, d, base.slots);
      v := Message(slots);
  }

  /** pb_dec_bytes and pb_dec_string, with room for some bytes. */
  method DecodeBlob(stream: IStream, room: int) returns (ok: bool, v: Datum)
    requires stream.Ok()
    modifies stream
    ensures var size := Varint32(old(stream.Rest()));
            var r := if size.None? || size.value.0 > room then None else Take(size.value.1, size.value.0);
            && stream.Read(ok, old(stream.pos + stream.bytesLeft), RestOf(r)) && (ok ==> v == Blob(r.value.0))
    ensures stream.bytesLeft <= old(stream.bytesLeft)
  {
    hide Varint32;
    var size, bytes;
    v := Blob([]);
    ok, size := stream.DecodeVarint32();
    if ok {
      if size > room {
        return false, v;
      }
      ok, bytes := stream.ReadBytes(size);
      v := Blob(bytes);
    }
  }

  /** pb_dec_fixed_length_bytes; no bytes at all stand for zeros. */
  method DecodeFixedBytes(stream: IStream, n: nat) returns (ok: bool, v: Datum)
    requires stream.Ok()
    modifies stream
    ensures var r := DecodeValue(FixedBytesType(n), Num(0), old(stream.Rest()));
            && stream.Read(ok, old(stream.pos + stream.bytesLeft), RestOf(r)) && (ok ==> v == r.value.0)
    ensures stream.bytesLeft <= old(stream.bytesLeft)
  {
    hide Varint32;
    var size, bytes;
    v := Blob([]);
    ok, size := stream.DecodeVarint32();
    if ok {
      if size == 0 {
        v := Blob(seq(n, _ => 0));
        return;
      }
      if size != n {
        return false, v;
      }
      ok, bytes := stream.ReadBytes(n);
      v := Blob(bytes);
    }
  }

  /** pb_dec_submessage; the caller has set the message to start from. */
  method DecodeSubmessage(stream: IStream, d: Descriptor, base: seq<Slot>) returns (ok: bool, slots: seq<Slot>)
    requires stream.Ok() && ShapedMessage(d, base) && TagsOk(d)
    modifies stream
    ensures var r := DecodeValue(MessageType(d), Message(base), old(stream.Rest()));
            && stream.Read(ok, old(stream.pos + stream.bytesLeft), RestOf(r)) && (ok ==> Message(slots) == r.value.0)
    ensures stream.bytesLeft <= old(stream.bytesLeft)
    decreases stream.bytesLeft, 0
  {
    hide DecodeFields, ShapedMessage, DecodeValue, Sub;
    SubmessageIs(d, base, stream.Rest());
    var made, sub := stream.MakeSubstream();
    if !made {
      return false, base;
    }
    var end: nat := sub.pos + sub.bytesLeft;
    ok, slots := DecodeNoInit(sub, d, base);
    if !ok {
      return;
    }
    var closed := stream.CloseSubstream(sub);
  }

  lemma SubmessageIs(d: Descriptor, base: seq<Slot>, b: Bytes)
    requires ShapedMessage(d, base)
    ensures Shaped(MessageType(d), Message(base))
    ensures DecodeValue(MessageType(d), Message(base), b) ==
            if Sub(b).None? then None else
            var slots := DecodeFields(d, base, {}, Sub(b).value.0);
            if slots.None? then None else Some((Message(slots.value), Sub(b).value.1))
  {
    hide DecodeFields, Sub;
  }

  /** The packed part of decode_static_field. */
  method DecodeArray(stream: IStream, l: LType, items: seq<Datum>, max: nat) returns (ok: bool, items': seq<Datum>)
    requires stream.Ok() && Packable(l)
    modifies stream
    ensures stream.bytesLeft <= old(stream.bytesLeft) && stream.Ok()
    ensures var sub := Sub(old(stream.Rest()));
            var r := if sub.None? then None else DecodePacked(l, items, max, sub.value.0);
            && stream.Read(ok, old(stream.pos + stream.bytesLeft), if r.None? then None else Some(sub.value.1))
            && (ok ==> items' == r.value)
    decreases stream.bytesLeft, 2
  {
    hide DecodeValue, DecodePacked, Sub, Shaped, Packable;
    items' := items;
    var made, sub := stream.MakeSubstream();
    if !made {
      return false, items;
    }
    ghost var goal, end, at, left := DecodePacked(l, items, max, sub.Rest()), sub.pos + sub.bytesLeft, stream.pos, stream.bytesLeft;
    while sub.bytesLeft > 0 && |items'| < max
      invariant sub.Ok() && sub.source == stream.source && sub.pos + sub.bytesLeft == end
      invariant sub.bytesLeft < old(stream.bytesLeft) && stream.pos == at && stream.bytesLeft == left
      invariant goal == DecodePacked(l, items', max, sub.Rest())
      decreases sub.bytesLeft
    {
      ShapedNumber(l, sub.Rest());
      PackedIs(l, items', max, sub.Rest());
      var v;
      ok, v := DecodeOne(sub, l, Num(0));
      if !ok {
        return;
      }
      items' := items' + [v];
    }
    PackedIs(l, items', max, sub.Rest());
    if sub.bytesLeft != 0 {
      return false, items';
    }
    var closed := stream.CloseSubstream(sub);
    return true, items';
  }

  lemma PackedIs(l: LType, items: seq<Datum>, max: nat, b: Bytes)
    requires Packable(l)
    ensures Shaped(l, Num(0))
    ensures b == [] ==> DecodePacked(l, items, max, b) == Some(items)
    ensures b != [] && |items| >= max ==> DecodePacked(l, items, max, b).None?
    ensures b != [] && |items| < max ==>
              var v := DecodeValue(l, Num(0), b);
              DecodePacked(l, items, max, b) == if v.None? then None else DecodePacked(l, items + [v.value.0], max, v.value.1)
  {
    hide DecodeValue;
  }

  /** Something is read of a number. */
  lemma ShapedNumber(l: LType, b: Bytes)
    requires Packable(l)
    ensures Shaped(l, Num(0)) && (DecodeValue(l, Num(0), b).Some? ==> |DecodeValue(l, Num(0), b).value.1| < |b|)
  {
  }

  /** decode_static_field. */
  method DecodeStaticField(stream: IStream, d: Descriptor, slots: seq<Slot>, i: nat, wireType: nat)
    returns (ok: bool, slots': seq<Slot>)
    requires stream.Ok() && ShapedMessage(d, slots) && i < |slots| && TagsOk(d)
    modifies stream
    ensures stream.Read(ok, old(stream.pos + stream.bytesLeft), RestOf(DecodeField(d, slots, i, wireType, old(stream.Rest()))))
    ensures ok ==> slots' == DecodeField(d, slots, i, wireType, old(stream.Rest())).value.0
    ensures stream.bytesLeft <= old(stream.bytesLeft)
    decreases stream.bytesLeft, 3
  {
    hide DecodeValue, DecodePacked;
    var f, s := d.fields[i], slots[i];
    assert ShapedSlot(f, s);
    DefaultValueShaped(f);
    slots' := slots;
    var v;
    match f.htype
    case Required =>
      ok, v := DecodeOne(stream, f.ltype, s.v);
      slots' := slots[i := One(v)];
    case Optional =>
      ok, v := DecodeOne(stream, f.ltype, if s.o.Some? then s.o.value else DefaultValue(f));
      slots' := slots[i := Maybe(Some(v))];
    case OneOf(_) =>
      ok, v := DecodeOne(stream, f.ltype, DefaultValue(f));
      slots' := Choose(d, slots, i, v);
    case Repeated(max) =>
      if wireType == WT_STRING && Packable(f.ltype) {
        var items;
        ok, items := DecodeArray(stream, f.ltype, s.items, max);
        slots' := slots[i := Many(items)];
      } else {
        if |s.items| >= max {
          return false, slots;
        }
        ok, v := DecodeOne(stream, f.ltype, DefaultValue(f));
        slots' := slots[i := Many(s.items + [v])];
      }
  }

  /** pb_decode_noinit: decodes what the bytes of the stream decode to, or fails if they
      decode to nothing. */
  method DecodeNoInit(stream: IStream, d: Descriptor, slots: seq<Slot>) returns (ok: bool, slots': seq<Slot>)
    requires stream.Ok() && ShapedMessage(d, slots) && TagsOk(d)
    modifies stream
    ensures var r := DecodeFields(d, slots, {}, old(stream.Rest()));
            (ok <==> r.Some?) && (ok ==> slots' == r.value && stream.pos + stream.bytesLeft == old(stream.pos + stream.bytesLeft))
    ensures stream.Ok() && stream.bytesLeft <= old(stream.bytesLeft)
    decreases stream.bytesLeft, 4
  {
    hide Varint32, DecodeField, ShapedMessage, AllSeen;
    ghost var goal, end := DecodeFields(d, slots, {}, stream.Rest()), stream.pos + stream.bytesLeft;
    slots' := slots;
    var seen: set<nat> := {};
    var iter := new FieldIter(d);
    while stream.bytesLeft > 0
      invariant stream.Ok() && stream.pos + stream.bytesLeft == end && stream.bytesLeft <= old(stream.bytesLeft)
      invariant iter.Ok() && iter.d == d && fresh(iter) && ShapedMessage(d, slots')
      invariant goal == DecodeFields(d, slots', seen, stream.Rest())
      decreases stream.bytesLeft
    {
      assert stream.Rest() != [];
      var temp;
      ok, temp := stream.DecodeVarint32();
      if !ok {
        return;
      }
      if temp == 0 {
        // a zero ends the message
        break;
      }
      var tag, wireType := temp / 8, temp % 8;
      var found := iter.FindTag(tag);
      if d.fields == [] {
        ok := PassUnknown(stream, found, wireType);
        if !ok {
          return;
        }
      } else if !found {
        ok := stream.PassField(wireType);
        if !ok {
          return;
        }
      } else {
        if d.fields[iter.pos].htype.Required? && iter.requiredIndex < MAX_REQUIRED_FIELDS {
          seen := seen + {iter.requiredIndex};
        }
        ShapedLength(d, slots');
        ok, slots' := DecodeStaticField(stream, d, slots', iter.pos, wireType);
        if !ok {
          return;
        }
      }
    }
    var count := iter.CountRequired();
    ok := CheckSeen(d, count, seen);
  }

  lemma ShapedLength(d: Descriptor, slots: seq<Slot>)
    requires ShapedMessage(d, slots)
    ensures |slots| == |d.fields|
  {
  }

  /** A message type without fields passes over everything. */
  method PassUnknown(stream: IStream, found: bool, wireType: nat) returns (ok: bool)
    requires stream.Ok()
    modifies stream
    ensures stream.Read(ok, old(stream.pos + stream.bytesLeft),
                        if found then SkipBool(old(stream.Rest())) else SkipField(wireType, old(stream.Rest())))
    ensures stream.bytesLeft <= old(stream.bytesLeft)
  {
    hide Varint32;
    if found {
      var n;
      ok, n := stream.DecodeVarint32();
    } else {
      ok := stream.PassField(wireType);
    }
  }

  /** The end of pb_decode_noinit. */
  method CheckSeen(d: Descriptor, count: nat, seen: set<nat>) returns (ok: bool)
    requires count == RequiredBefore(d, |d.fields|)
    ensures ok <==> AllSeen(d, seen)
  {
    var most := if count > MAX_REQUIRED_FIELDS then MAX_REQUIRED_FIELDS else count;
    for k := 0 to most
      invariant forall j :: 0 <= j < k ==> j in seen
    {
      if k !in seen {
        return false;
      }
    }
    return true;
  }

  /** pb_decode, from a buffer. */
  method DecodeMessage(d: Descriptor, b: Bytes) returns (r: Option<seq<Slot>>)
    requires TagsOk(d)
    ensures r == Decode(d, b)
  {
    hide DecodeFields;
    DefaultShaped(d);
    var stream := new IStream(b, 0, |b|);
    assert b[0..|b|] == b;
    var ok, slots := DecodeNoInit(stream, d, Default(d));
    r := if ok then Some(slots) else None;
  }
}
