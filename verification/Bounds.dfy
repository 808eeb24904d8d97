/** Whatever bytes come in, what is decoded fits the struct of its message type: arrays do
    not exceed their size, bytes and strings their room, and numbers their width. */
module Bounds {
  import opened Keys
  import opened Coding
  import opened Messages
  import opened Decoders

  /** The value fits the storage of its type, a string with its terminator. */
  predicate Holds(l: LType, v: Datum)
    decreases l, 0
  {
    match l
    case BoolType => v.Num? && (v.n == 0 || v.n == 1)
    case VarintType(w) => v.Num? && InSigned(v.n, w)
    case UVarintType(w) => v.Num? && 0 <= v.n < 2 * Half(w)
    case SVarintType(w) => v.Num? && InSigned(v.n, w)
    case Fixed32Type => v.Num? && 0 <= v.n < WORD
    case Fixed64Type => v.Num? && 0 <= v.n < LONG
    case BytesType(room) => v.Blob? && |v.b| <= room
    case StringType(n) => v.Blob? && |v.b| < n
    case FixedBytesType(n) => v.Blob? && |v.b| == n
    case MessageType(d) => v.Message? && HoldsMessage(d, v.slots)
  }

  predicate HoldsSlot(f: Field, s: Slot)
    decreases f, 0
  {
    match f.htype
    case Required => s.One? && Holds(f.ltype, s.v)
    case Optional | OneOf(_) => s.Maybe? && (s.o.Some? ==> Holds(f.ltype, s.o.value))
    case Repeated(max) => s.Many? && |s.items| <= max && forall i :: 0 <= i < |s.items| ==> Holds(f.ltype, s.items[i])
  }

  /** Every field holds its value, and of a union at most one member is there. */
  predicate HoldsMessage(d: Descriptor, slots: seq<Slot>)
    decreases d, 0
  {
    && |slots| == |d.fields|
    && (forall i :: 0 <= i < |d.fields| ==> HoldsSlot(d.fields[i], slots[i]))
    && UnionsOk(d, slots)
  }

  /** The values that fields start with have the types of the fields. */
  predicate StartsOk(d: Descriptor)
    decreases d
  {
    forall i :: 0 <= i < |d.fields| ==>
      if d.fields[i].ltype.MessageType? then StartsOk(d.fields[i].ltype.d) else Holds(d.fields[i].ltype, d.fields[i].init)
  }

  predicate StartOk(f: Field) {
    if f.ltype.MessageType? then StartsOk(f.ltype.d) else Holds(f.ltype, f.init)
  }

  // ------------------------------------------------------------------ fresh messages

  lemma {:induction false} DefaultHolds(d: Descriptor)
    requires StartsOk(d)
    ensures HoldsMessage(d, Default(d))
    decreases d, 1
  {
    forall i | 0 <= i < |d.fields|
      ensures HoldsSlot(d.fields[i], Default(d)[i])
    {
      DefaultValueHolds(d.fields[i]);
    }
  }

  lemma {:induction false} DefaultValueHolds(f: Field)
    requires StartOk(f)
    ensures Holds(f.ltype, DefaultValue(f))
    decreases f, 0
  {
    if f.ltype.MessageType? {
      DefaultHolds(f.ltype.d);
    }
  }

  // ------------------------------------------------------------------ decoded values

  lemma FixedInWidth(b: Bytes)
    ensures |b| == 4 ==> FromFixed(b) < WORD
    ensures |b| == 8 ==> FromFixed(b) < LONG
  {
    FromFixedBound(b);
    Pow256Of8();
    assert Pow256(4) == WORD;
  }

  /** What a type with messages inside must start from. */
  predicate BaseOk(l: LType, base: Datum) {
    l.MessageType? ==> StartsOk(l.d) && base.Message? && HoldsMessage(l.d, base.slots)
  }

  lemma {:induction false} ValueHolds(l: LType, base: Datum, b: Bytes)
    requires Shaped(l, base) && BaseOk(l, base) && DecodeValue(l, base, b).Some?
    ensures Holds(l, DecodeValue(l, base, b).value.0)
    decreases |b|, 1
  {
    if l.MessageType? {
      var sub := Sub(b).value.0;
      FieldsHold(l.d, base.slots, {}, sub);
    } else {
      PlainHolds(l, base, b);
    }
  }

  lemma PlainHolds(l: LType, base: Datum, b: Bytes)
    requires !l.MessageType? && DecodeValue(l, base, b).Some?
    ensures Holds(l, DecodeValue(l, base, b).value.0)
  {
    hide Varint32, Varint64;
    match l
    case Fixed32Type => FixedInWidth(Take(b, 4).value.0);
    case Fixed64Type => FixedInWidth(Take(b, 8).value.0);
    case _ =>
  }

  lemma {:induction false} PackedHolds(l: LType, items: seq<Datum>, max: nat, b: Bytes)
    requires Packable(l) && DecodePacked(l, items, max, b).Some?
    requires |items| <= max && forall i :: 0 <= i < |items| ==> Holds(l, items[i])
    ensures var r := DecodePacked(l, items, max, b).value; |r| <= max && forall i :: 0 <= i < |r| ==> Holds(l, r[i])
    decreases |b|
  {
    hide DecodeValue;
    if b != [] {
      var v := NextNumber(l, items, max, b);
      PackedHolds(l, items + [v.0], max, v.1);
    }
  }

  lemma NextNumber(l: LType, items: seq<Datum>, max: nat, b: Bytes) returns (v: (Datum, Bytes))
    requires Packable(l) && DecodePacked(l, items, max, b).Some? && b != []
    ensures |items| < max && Holds(l, v.0) && |v.1| < |b|
    ensures DecodePacked(l, items + [v.0], max, v.1) == DecodePacked(l, items, max, b)
  {
    PlainHolds(l, Num(0), b);
    v := DecodeValue(l, Num(0), b).value;
  }

  // ------------------------------------------------------------------ decoded messages

  lemma HoldsAt(d: Descriptor, slots: seq<Slot>, i: nat)
    requires HoldsMessage(d, slots) && i < |slots|
    ensures |slots| == |d.fields| && HoldsSlot(d.fields[i], slots[i])
  {
  }

  /** A field of its own gets a value. */
  lemma UpdateHolds(d: Descriptor, slots: seq<Slot>, i: nat, s: Slot)
    requires HoldsMessage(d, slots) && i < |slots| && HoldsSlot(d.fields[i], s) && !d.fields[i].htype.OneOf?
    ensures HoldsMessage(d, slots[i := s])
  {
    hide HoldsSlot;
  }

  /** A member of a union is chosen. */
  lemma ChooseHolds(d: Descriptor, slots: seq<Slot>, i: nat, v: Datum)
    requires HoldsMessage(d, slots) && i < |slots| && d.fields[i].htype.OneOf? && Holds(d.fields[i].ltype, v)
    ensures HoldsMessage(d, Choose(d, slots, i, v))
  {
    hide Holds;
    var r := Choose(d, slots, i, v);
    forall j | 0 <= j < |r|
      ensures HoldsSlot(d.fields[j], r[j])
    {
      HoldsAt(d, slots, j);
    }
  }

  lemma {:induction false} FieldHolds(d: Descriptor, slots: seq<Slot>, i: nat, wireType: nat, b: Bytes)
    requires ShapedMessage(d, slots) && StartsOk(d) && HoldsMessage(d, slots) && i < |slots|
    requires DecodeField(d, slots, i, wireType, b).Some?
    ensures HoldsMessage(d, DecodeField(d, slots, i, wireType, b).value.0)
    decreases |b|, 2
  {
    hide DecodeValue, DecodePacked, Holds, HoldsMessage, DefaultValue;
    HoldsAt(d, slots, i);
    var f, s := d.fields[i], slots[i];
    assert ShapedSlot(f, s);
    DefaultValueShaped(f);
    assert StartOk(f);
    DefaultValueHolds(f);
    match f.htype
    case Required =>
      BaseIs(f.ltype, s.v, f);
      ValueHolds(f.ltype, s.v, b);
      UpdateHolds(d, slots, i, One(DecodeValue(f.ltype, s.v, b).value.0));
    case Optional =>
      var base := if s.o.Some? then s.o.value else DefaultValue(f);
      BaseIs(f.ltype, base, f);
      ValueHolds(f.ltype, base, b);
      UpdateHolds(d, slots, i, Maybe(Some(DecodeValue(f.ltype, base, b).value.0)));
    case OneOf(_) =>
      BaseIs(f.ltype, DefaultValue(f), f);
      ValueHolds(f.ltype, DefaultValue(f), b);
      ChooseHolds(d, slots, i, DecodeValue(f.ltype, DefaultValue(f), b).value.0);
    case Repeated(max) =>
      if wireType == WT_STRING && Packable(f.ltype) {
        var sub := Sub(b).value.0;
        PackedHolds(f.ltype, s.items, max, sub);
        UpdateHolds(d, slots, i, Many(DecodePacked(f.ltype, s.items, max, sub).value));
      } else {
        BaseIs(f.ltype, DefaultValue(f), f);
        ValueHolds(f.ltype, DefaultValue(f), b);
        UpdateHolds(d, slots, i, Many(s.items + [DecodeValue(f.ltype, DefaultValue(f), b).value.0]));
      }
  }

  lemma BaseIs(l: LType, base: Datum, f: Field)
    requires StartOk(f) && l == f.ltype && Holds(l, base)
    ensures BaseOk(l, base)
  {
  }

  lemma {:induction false} FieldsHold(d: Descriptor, slots: seq<Slot>, seen: set<nat>, b: Bytes)
    requires ShapedMessage(d, slots) && StartsOk(d) && HoldsMessage(d, slots) && DecodeFields(d, slots, seen, b).Some?
    ensures HoldsMessage(d, DecodeFields(d, slots, seen, b).value)
    decreases |b|, 0
  {
    hide DecodeField, HoldsMessage, ShapedMessage, AllSeen, Varint32, StartsOk;
    if b != [] {
      var t := Varint32(b).value;
      if t.0 != 0 {
        var tag, wireType := t.0 / 8, t.0 % 8;
        var i := Find(d, tag, 0);
        if i.None? {
          var rest := if d.fields == [] && tag == 0 then SkipBool(t.1) else SkipField(wireType, t.1);
          FieldsHold(d, slots, seen, rest.value);
        } else {
          ShapedLength(d, slots);
          FieldHolds(d, slots, i.value, wireType, t.1);
          var r := DecodeField(d, slots, i.value, wireType, t.1).value;
          FieldsHold(d, r.0, See(d, i.value, seen), r.1);
        }
      }
    }
  }

  /** pb_decode of any bytes: if it succeeds, the message fits its struct. */
  lemma DecodedHolds(d: Descriptor, b: Bytes)
    requires StartsOk(d) && Decode(d, b).Some?
    ensures HoldsMessage(d, Decode(d, b).value)
  {
    DefaultShaped(d);
    DefaultHolds(d);
    FieldsHold(d, Default(d), {}, b);
  }
}
