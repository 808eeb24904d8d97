/** Messages of nanopb: descriptors (pb.h), the values of their fields, and the bytes that
    pb_encode.c makes of them. */
module Messages {
  import opened Keys
  import opened Coding

  /** How many bits an integer field has. */
  type Width = w: nat | w == 8 || w == 16 || w == 32 || w == 64 witness 8

  datatype LType =
    | BoolType
    | VarintType(bits: Width)
    | UVarintType(bits: Width)
    | SVarintType(bits: Width)
    | Fixed32Type
    | Fixed64Type
    | BytesType(room: nat)            // how many bytes fit
    | StringType(dataSize: nat)       // how many characters fit, with the terminator
    | FixedBytesType(size: nat)
    | MessageType(d: Descriptor)

  /** An optional field has a flag of its own; the members of a union share one. */
  datatype HType = Required | Optional | Repeated(arraySize: nat) | OneOf(union: nat)

  /** `init` is what a field without a message starts with. */
  datatype Field = Field(tag: nat, htype: HType, ltype: LType, init: Datum)

  datatype Descriptor = Descriptor(fields: seq<Field>)

  datatype Datum = Num(n: int) | Blob(b: Bytes) | Message(slots: seq<Slot>)

  datatype Slot = One(v: Datum) | Maybe(o: Option<Datum>) | Many(items: seq<Datum>)

  // ------------------------------------------------------------------ values that fit the C types

  /** Half the numbers of a width. */
  function Half(w: Width): nat {
    if w == 8 then 0x80 else if w == 16 then 0x8000 else if w == 32 then 0x8000_0000 else 0x8000_0000_0000_0000
  }

  predicate InSigned(n: int, w: Width) {
    -n <= Half(w) && n < Half(w)
  }

  predicate Typed(l: LType, v: Datum)
    decreases l, 0
  {
    match l
    case BoolType => v.Num? && (v.n == 0 || v.n == 1)
    case VarintType(w) => v.Num? && InSigned(v.n, w)
    case UVarintType(w) => v.Num? && 0 <= v.n < 2 * Half(w)
    case SVarintType(w) => v.Num? && InSigned(v.n, w)
    case Fixed32Type => v.Num? && 0 <= v.n < WORD
    case Fixed64Type => v.Num? && 0 <= v.n < LONG
    case BytesType(_) => v.Blob?
    case StringType(n) => v.Blob? && |v.b| <= n && 0 !in v.b
    case FixedBytesType(n) => v.Blob? && |v.b| == n
    case MessageType(d) => v.Message? && TypedMessage(d, v.slots)
  }

  predicate TypedSlot(f: Field, s: Slot)
    decreases f, 0
  {
    match f.htype
    case Required => s.One? && Typed(f.ltype, s.v)
    case Optional => s.Maybe? && (s.o.Some? ==> Typed(f.ltype, s.o.value))
    case OneOf(_) => s.Maybe? && (s.o.Some? ==> Typed(f.ltype, s.o.value))
    case Repeated(_) => s.Many? && forall i :: 0 <= i < |s.items| ==> Typed(f.ltype, s.items[i])
  }

  /** Every field has a value of its type, and at most one member of a union is there. */
  predicate TypedMessage(d: Descriptor, slots: seq<Slot>)
    decreases d, 0
  {
    && |slots| == |d.fields|
    && (forall i :: 0 <= i < |d.fields| ==> TypedSlot(d.fields[i], slots[i]))
    && UnionsOk(d, slots)
  }

  predicate SameUnion(f: Field, g: Field) {
    f.htype.OneOf? && g.htype.OneOf? && f.htype.union == g.htype.union
  }

  predicate UnionsOk(d: Descriptor, slots: seq<Slot>)
    requires |slots| == |d.fields|
  {
    forall i, j :: 0 <= i < j < |slots| && SameUnion(d.fields[i], d.fields[j]) && slots[i].Maybe? && slots[j].Maybe? ==>
      slots[i].o.None? || slots[j].o.None?
  }

  // ------------------------------------------------------------------ the bytes of a value

  /** A 64-bit number as its two's complement. */
  function ToUnsigned(n: int): nat
    requires InSigned(n, 64)
  {
    if n < 0 then n + LONG else n
  }

  /** Shifts left by one and, for a negative number, flips all bits. */
  function ZigZag(n: int): nat
    requires InSigned(n, 64)
  {
    if n < 0 then LONG - 1 - (2 * ToUnsigned(n)) % LONG else 2 * n
  }

  lemma Widths(n: int, w: Width)
    requires InSigned(n, w)
    ensures InSigned(n, 64)
  {
  }

  function Packable(l: LType): bool {
    l.BoolType? || l.VarintType? || l.UVarintType? || l.SVarintType? || l.Fixed32Type? || l.Fixed64Type?
  }

  const WT_VARINT := 0
  const WT_64BIT := 1
  const WT_STRING := 2
  const WT_32BIT := 5

  function WireType(l: LType): (w: nat)
    ensures w < 8
  {
    match l
    case BoolType | VarintType(_) | UVarintType(_) | SVarintType(_) => WT_VARINT
    case Fixed32Type => WT_32BIT
    case Fixed64Type => WT_64BIT
    case BytesType(_) | StringType(_) | FixedBytesType(_) | MessageType(_) => WT_STRING
  }

  function TagBytes(tag: nat, wireType: nat): Bytes {
    Varint(8 * tag + wireType)
  }

  /** One after the other, if there are both. */
  function Cat(a: Option<Bytes>, b: Option<Bytes>): Option<Bytes> {
    if a.Some? && b.Some? then Some(a.value + b.value) else None
  }

  function WithLength(b: Bytes): Bytes {
    Varint(|b|) + b
  }

  /** The bytes of a value without its tag; none if a byte field is too full. */
  function EncodeValue(l: LType, v: Datum): Option<Bytes>
    requires Typed(l, v)
    decreases l, 0
  {
    match l
    case BoolType => Some(Varint(v.n))
    case VarintType(w) => Widths(v.n, w); Some(Varint(ToUnsigned(v.n)))
    case UVarintType(_) => Some(Varint(v.n))
    case SVarintType(w) => Widths(v.n, w); Some(Varint(ZigZag(v.n)))
    case Fixed32Type => Some(EncodeFixed32(v.n))
    case Fixed64Type => Some(EncodeFixed64(v.n))
    case BytesType(room) => if |v.b| > room then None else Some(WithLength(v.b))
    case StringType(_) => Some(WithLength(v.b))
    case FixedBytesType(_) => Some(WithLength(v.b))
    case MessageType(d) =>
      var e := EncodeFields(d, v.slots, 0);
      if e.None? then None else Some(WithLength(e.value))
  }

  /** Items one after the other, each with a prefix. */
  function EncodeItems(prefix: Bytes, l: LType, items: seq<Datum>): Option<Bytes>
    requires forall i :: 0 <= i < |items| ==> Typed(l, items[i])
    decreases l, 1, |items|
  {
    if items == [] then Some([])
    else Cat(Cat(Some(prefix), EncodeValue(l, items[0])), EncodeItems(prefix, l, items[1..]))
  }

  /** A field with its tags; an array is packed if its items are numbers. */
  function EncodeSlot(f: Field, s: Slot): Option<Bytes>
    requires TypedSlot(f, s)
    decreases f, 0
  {
    match f.htype
    case Required => Cat(Some(TagBytes(f.tag, WireType(f.ltype))), EncodeValue(f.ltype, s.v))
    case Optional =>
      if s.o.None? then Some([]) else Cat(Some(TagBytes(f.tag, WireType(f.ltype))), EncodeValue(f.ltype, s.o.value))
    case OneOf(_) =>
      if s.o.None? then Some([]) else Cat(Some(TagBytes(f.tag, WireType(f.ltype))), EncodeValue(f.ltype, s.o.value))
    case Repeated(max) =>
      if s.items == [] then Some([]) else
      if |s.items| > max then None else
      if Packable(f.ltype) then
        var e := EncodeItems([], f.ltype, s.items);
        if e.None? then None else Some(TagBytes(f.tag, WT_STRING) + WithLength(e.value))
      else EncodeItems(TagBytes(f.tag, WireType(f.ltype)), f.ltype, s.items)
  }

  /** The fields from the given one on. */
  function EncodeFields(d: Descriptor, slots: seq<Slot>, from: nat): Option<Bytes>
    requires TypedMessage(d, slots) && from <= |slots|
    decreases d, 1, |slots| - from
  {
    if from == |slots| then Some([])
    else Cat(EncodeSlot(d.fields[from], slots[from]), EncodeFields(d, slots, from + 1))
  }

  /** The bytes of a message. */
  function Encode(d: Descriptor, slots: seq<Slot>): Option<Bytes>
    requires TypedMessage(d, slots)
  {
    EncodeFields(d, slots, 0)
  }

  // ------------------------------------------------------------------ fresh messages

  function DefaultValue(f: Field): Datum
    decreases f, 0
  {
    if f.ltype.MessageType? then Message(Default(f.ltype.d)) else f.init
  }

  function DefaultSlot(f: Field): Slot
    decreases f, 1
  {
    match f.htype
    case Required => One(DefaultValue(f))
    case Optional | OneOf(_) => Maybe(None)
    case Repeated(_) => Many([])
  }

  /** pb_message_set_to_defaults. */
  function Default(d: Descriptor): (slots: seq<Slot>)
    ensures |slots| == |d.fields|
    decreases d, 0
  {
    seq(|d.fields|, i requires 0 <= i < |d.fields| => DefaultSlot(d.fields[i]))
  }
}
