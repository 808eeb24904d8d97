/** What is encoded is decoded again: every message whose strings are terminated comes
    back, and no other one does. */
module Wire {
  import opened Keys
  import opened Coding
  import opened Messages
  import opened Encoders
  import opened Decoders

  // ------------------------------------------------------------------ numbers

  /** Setting bits above a number adds them. */
  lemma {:induction false} OrAbove(a: nat, d: nat, k: nat)
    requires a < Pow2(k)
    ensures BitOr(a, d * Pow2(k)) == a + d * Pow2(k)
    decreases k
  {
    if a > 0 && d > 0 {
      OrAbove(a / 2, d, k - 1);
      Doubled(d, Pow2(k - 1));
    }
  }

  lemma Doubled(d: nat, p: nat)
    ensures d * (2 * p) == 2 * (d * p)
  {
  }

  lemma Pow2By7(k: nat)
    ensures Pow2(k + 7) == 128 * Pow2(k)
  {
    assert Pow2(k + 2) == 2 * Pow2(k + 1) == 4 * Pow2(k);
    assert Pow2(k + 4) == 2 * Pow2(k + 3) == 4 * Pow2(k + 2);
    assert Pow2(k + 6) == 2 * Pow2(k + 5) == 4 * Pow2(k + 4);
  }

  lemma Pow2Of28()
    ensures Pow2(7) == 0x80 && Pow2(14) == 0x4000 && Pow2(21) == 0x20_0000 && Pow2(28) == 0x1000_0000
  {
    assert Pow2(0) == 1;
    Pow2By7(0);
    Pow2By7(7);
    Pow2By7(14);
    Pow2By7(21);
  }

  lemma VarintFront(v: nat, tail: Bytes)
    ensures var b := Varint(v) + tail;
            if v < 128 then b[0] == v && b[1..] == tail
            else b[0] == v % 128 + 128 && b[1..] == Varint(v / 128) + tail
  {
    VarintUnfolds(v);
    hide Varint;
    if v < 128 {
      Front(v, [], tail);
    } else {
      Front(v % 128 + 128, Varint(v / 128), tail);
    }
  }

  lemma VarintUnfolds(v: nat)
    ensures Varint(v) == if v < 128 then [v] + [] else [v % 128 + 128] + Varint(v / 128)
  {
  }

  lemma Front(x: Byte, y: Bytes, tail: Bytes)
    ensures ([x] + y + tail)[0] == x && ([x] + y + tail)[1..] == y + tail
    ensures y == [] ==> ([x] + y + tail)[1..] == tail
  {
  }

  /** One byte of a 32-bit varint within the first 32 bits. */
  lemma More32Unfolds(b: Bytes, result: nat, bitpos: nat, result': nat, bitpos': nat)
    requires b != [] && bitpos < 32 && bitpos' == (bitpos + 7) % 256
    requires result' == BitOr(result, ((b[0] % 128) * Pow2(bitpos)) % WORD)
    ensures More32(b, result, bitpos) ==
            if b[0] >= 128 then More32(b[1..], result', bitpos')
            else if bitpos' == 35 && b[0] >= 16 then None
            else Some((result', b[1..]))
  {
    hide BitOr, Pow2;
  }

  lemma Bitpos(k: nat)
    requires 1 <= k <= 4
    ensures 7 * k < 32 && (7 * k + 7) % 256 == 7 * (k + 1) && (7 * (k + 1) == 35 <==> k == 4)
  {
  }

  lemma SmallMod(x: nat)
    requires x < WORD
    ensures x % WORD == x
  {
  }

  lemma More32Step(b: Bytes, result: nat, k: nat, low: nat, p: nat)
    requires b != [] && b[0] % 128 == low && 1 <= k <= 4 && p == Pow2(7 * k) && result < p && low * p < WORD
    ensures b[0] >= 128 ==> More32(b, result, 7 * k) == More32(b[1..], result + low * p, 7 * (k + 1))
    ensures b[0] < 128 && (k == 4 ==> low < 16) ==> More32(b, result, 7 * k) == Some((result + low * p, b[1..]))
  {
    hide BitOr, Pow2, More32;
    Bitpos(k);
    SmallMod(low * p);
    OrAbove(result, low, 7 * k);
    More32Unfolds(b, result, 7 * k, result + low * p, 7 * (k + 1));
  }

  /** The rest of a 32-bit varint, k bytes into it. */
  lemma {:induction false} More32Reads(w: nat, k: nat, result: nat, tail: Bytes)
    requires 1 <= k <= 4 && result < Pow2(7 * k) && result + w * Pow2(7 * k) < WORD
    ensures More32(Varint(w) + tail, result, 7 * k) == Some((result + w * Pow2(7 * k), tail))
    decreases 4 - k
  {
    hide Varint, BitOr, Pow2, More32;
    var b, p := Varint(w) + tail, Pow2(7 * k);
    VarintFront(w, tail);
    LowPart(w, p);
    More32Step(b, result, k, w % 128, p);
    if w < 128 {
      LastFits(w, k, p);
    } else {
      MoreFits(w, k, p);
      Pow2By7(7 * k);
      More32Reads(w / 128, k + 1, result + w % 128 * p, tail);
    }
  }

  lemma LastFits(w: nat, k: nat, p: nat)
    requires p == Pow2(7 * k) && w * p < WORD
    ensures k == 4 ==> w < 16
  {
    Pow2Of28();
    assert k == 4 ==> w * p == w * 0x1000_0000;
  }

  lemma MoreFits(w: nat, k: nat, p: nat)
    requires 1 <= k <= 4 && p == Pow2(7 * k) && w * p < WORD && w >= 128
    ensures k < 4
  {
    Pow2Of28();
    LowPart(w, p);
  }

  lemma LowPart(w: nat, p: nat)
    requires p > 0
    ensures w * p == w % 128 * p + w / 128 * (128 * p)
    ensures w % 128 * p <= w * p && w % 128 * p <= 127 * p
    ensures w >= 128 ==> w * p >= 128 * p
  {
    var q, r := w / 128, w % 128;
    assert w == r + 128 * q;
    Distributes(r, q, p);
    Ordered(r, w, p);
    Ordered(r, 127, p);
    if w >= 128 {
      Ordered(128, w, p);
    }
  }

  lemma Distributes(r: nat, q: nat, p: nat)
    ensures (r + 128 * q) * p == r * p + q * (128 * p)
  {
  }

  lemma Ordered(a: nat, b: nat, p: nat)
    requires a <= b
    ensures a * p <= b * p
  {
  }

  lemma Varint32Reads(v: nat, tail: Bytes)
    requires v < WORD
    ensures Varint32(Varint(v) + tail) == Some((v, tail))
  {
    hide Varint, More32;
    VarintFront(v, tail);
    if v >= 128 {
      Pow2Of28();
      More32Reads(v / 128, 1, v % 128, tail);
    }
  }

  lemma SmallLong(x: nat)
    requires x < LONG
    ensures x % LONG == x
  {
  }

  lemma Varint64Reads(v: nat, tail: Bytes)
    requires v < LONG
    ensures Varint64(Varint(v) + tail) == Some((v, tail))
  {
    hide Varint, FromVarint, Pow128;
    Pow128Of10();
    VarintRoundTrip(v, 10, tail);
    SmallLong(v);
    assert (Varint(v) + tail)[|Varint(v)|..] == tail;
  }

  lemma SignedBack(n: int, w: Width)
    requires InSigned(n, w)
    ensures InSigned(n, 64) && Signed(ToUnsigned(n), if w == 64 then 64 else 32) == n
  {
  }

  lemma ZigZagBack(n: int)
    requires InSigned(n, 64)
    ensures ZigZag(n) < LONG && UnZigZag(ZigZag(n)) == n
  {
  }

  // ------------------------------------------------------------------ lengths

  lemma TakeBack(b: Bytes, tail: Bytes)
    ensures Take(b + tail, |b|) == Some((b, tail))
  {
    assert (b + tail)[..|b|] == b && (b + tail)[|b|..] == tail;
  }

  lemma LengthBack(b: Bytes, tail: Bytes)
    requires |b| < WORD
    ensures Varint32(WithLength(b) + tail) == Some((|b|, b + tail))
    ensures Take(b + tail, |b|) == Some((b, tail)) && Sub(WithLength(b) + tail) == Some((b, tail))
  {
    hide Varint, Varint32;
    assert WithLength(b) + tail == Varint(|b|) + (b + tail);
    Varint32Reads(|b|, b + tail);
    TakeBack(b, tail);
  }

  // ------------------------------------------------------------------ what comes back

  /** Every string leaves room for its terminator. */
  predicate Terminated(l: LType, v: Datum)
    requires Typed(l, v)
    decreases l, 0
  {
    match l
    case StringType(n) => |v.b| < n
    case MessageType(d) => TerminatedFrom(d, v.slots, 0)
    case _ => true
  }

  predicate TerminatedSlot(f: Field, s: Slot)
    requires TypedSlot(f, s)
    decreases f, 0
  {
    match f.htype
    case Required => Terminated(f.ltype, s.v)
    case Optional | OneOf(_) => s.o.Some? ==> Terminated(f.ltype, s.o.value)
    case Repeated(_) => forall i :: 0 <= i < |s.items| ==> Terminated(f.ltype, s.items[i])
  }

  predicate TerminatedFrom(d: Descriptor, slots: seq<Slot>, from: nat)
    requires TypedMessage(d, slots)
    decreases d, 0
  {
    forall i :: from <= i < |slots| ==> TerminatedSlot(d.fields[i], slots[i])
  }

  /** All lengths inside fit into 32 bits. */
  predicate Short(l: LType, v: Datum)
    requires Typed(l, v)
    decreases l, 0
  {
    match l
    case BytesType(_) | StringType(_) | FixedBytesType(_) => |v.b| < WORD
    case MessageType(d) => ShortMessage(d, v.slots) && (EncodeFields(d, v.slots, 0).Some? ==> |EncodeFields(d, v.slots, 0).value| < WORD)
    case _ => true
  }

  predicate ShortSlot(f: Field, s: Slot)
    requires TypedSlot(f, s)
    decreases f, 0
  {
    match f.htype
    case Required => Short(f.ltype, s.v)
    case Optional | OneOf(_) => s.o.Some? ==> Short(f.ltype, s.o.value)
    case Repeated(_) =>
      && (forall i :: 0 <= i < |s.items| ==> Short(f.ltype, s.items[i]))
      && (Packable(f.ltype) ==> var e := EncodeItems([], f.ltype, s.items); e.Some? ==> |e.value| < WORD)
  }

  predicate ShortMessage(d: Descriptor, slots: seq<Slot>)
    requires TypedMessage(d, slots)
    decreases d, 0
  {
    forall i :: 0 <= i < |slots| ==> ShortSlot(d.fields[i], slots[i])
  }

  /** Field numbers take 29 bits, so that a tag takes 32. */
  predicate NumbersFit(d: Descriptor)
    decreases d
  {
    && (forall i :: 0 <= i < |d.fields| ==> d.fields[i].tag < 0x2000_0000)
    && (forall i :: 0 <= i < |d.fields| && d.fields[i].ltype.MessageType? ==> NumbersFit(d.fields[i].ltype.d))
  }

  predicate DescriptorOk(d: Descriptor) {
    TagsOk(d) && NumbersFit(d)
  }

  // ------------------------------------------------------------------ values

  lemma NumberBack(l: LType, v: Datum, tail: Bytes)
    requires Packable(l) && Typed(l, v)
    ensures EncodeValue(l, v).Some?
    ensures Shaped(l, Num(0)) && DecodeValue(l, Num(0), EncodeValue(l, v).value + tail) == Some((v, tail))
    ensures forall base :: DecodeValue(l, base, EncodeValue(l, v).value + tail) == Some((v, tail))
  {
    match l
    case BoolType => Varint32Reads(v.n, tail);
    case VarintType(w) => SignedBack(v.n, w); Varint64Reads(ToUnsigned(v.n), tail);
    case UVarintType(w) => Varint64Reads(v.n, tail);
    case SVarintType(w) => Widths(v.n, w); ZigZagBack(v.n); Varint64Reads(ZigZag(v.n), tail);
    case Fixed32Type => TakeBack(EncodeFixed32(v.n), tail);
    case Fixed64Type => TakeBack(EncodeFixed64(v.n), tail);
  }

  /** A value comes back, with what follows it, unless a string in it is not terminated. */
  lemma {:induction false} ValueBack(l: LType, v: Datum, base: Datum, tail: Bytes)
    requires Typed(l, v) && EncodeValue(l, v).Some? && Short(l, v) && Shaped(l, base)
    requires l.MessageType? ==> DescriptorOk(l.d) && base == Message(Default(l.d))
    ensures DecodeValue(l, base, EncodeValue(l, v).value + tail) == if Terminated(l, v) then Some((v, tail)) else None
    decreases l, 0, 0, 0
  {
    if Packable(l) {
      NumberBack(l, v, tail);
    } else if l.MessageType? {
      var e := EncodeFields(l.d, v.slots, 0).value;
      LengthBack(e, tail);
      FieldsBack(l.d, v.slots, 0);
      PartlyNothing(l.d, v.slots);
    } else {
      BlobBack(l, v, base, tail);
    }
  }

  lemma BlobBack(l: LType, v: Datum, base: Datum, tail: Bytes)
    requires l.BytesType? || l.StringType? || l.FixedBytesType?
    requires Typed(l, v) && EncodeValue(l, v).Some? && |v.b| < WORD
    ensures DecodeValue(l, base, EncodeValue(l, v).value + tail) == if Terminated(l, v) then Some((v, tail)) else None
  {
    LengthBack(v.b, tail);
    if l.FixedBytesType? && |v.b| == 0 {
      assert seq(0, _ => 0 as Byte) == v.b && v.b + tail == tail;
    }
  }

  /** One number of a packed array. */
  lemma PackedNext(l: LType, done: seq<Datum>, v: Datum, max: nat, rest: Bytes)
    requires Packable(l) && Typed(l, v) && |done| < max
    ensures EncodeValue(l, v).Some?
    ensures DecodePacked(l, done, max, EncodeValue(l, v).value + rest) == DecodePacked(l, done + [v], max, rest)
  {
    hide Typed, EncodeValue, DecodeValue;
    NumberBack(l, v, rest);
    NumberNotEmpty(l, v);
  }

  lemma NumberNotEmpty(l: LType, v: Datum)
    requires Packable(l) && Typed(l, v)
    ensures EncodeValue(l, v).Some? && EncodeValue(l, v).value != []
  {
  }

  /** Packed numbers come back behind those that were there. */
  lemma {:induction false} PackedBack(l: LType, done: seq<Datum>, items: seq<Datum>, max: nat)
    requires Packable(l) && (forall i :: 0 <= i < |items| ==> Typed(l, items[i])) && |done| + |items| <= max
    ensures EncodeItems([], l, items).Some?
    ensures DecodePacked(l, done, max, EncodeItems([], l, items).value) == Some(done + items)
    decreases |items|
  {
    hide Typed, EncodeValue, DecodeValue;
    if items == [] {
      assert done + [] == done;
    } else {
      PackedBack(l, done + [items[0]], items[1..], max);
      PackedStep(l, done, items, max);
    }
  }

  lemma PackedStep(l: LType, done: seq<Datum>, items: seq<Datum>, max: nat)
    requires Packable(l) && (forall i :: 0 <= i < |items| ==> Typed(l, items[i])) && items != [] && |done| < max
    requires EncodeItems([], l, items[1..]).Some?
    ensures EncodeItems([], l, items).Some?
    ensures DecodePacked(l, done, max, EncodeItems([], l, items).value) ==
            DecodePacked(l, done + [items[0]], max, EncodeItems([], l, items[1..]).value)
    ensures done + [items[0]] + items[1..] == done + items
  {
    hide Typed, EncodeValue, DecodeValue, DecodePacked;
    var rest := EncodeItems([], l, items[1..]).value;
    PackedNext(l, done, items[0], max, rest);
    var e := EncodeValue(l, items[0]).value;
    assert [] + e + rest == e + rest;
  }

  // ------------------------------------------------------------------ fields

  /** The message once its first n fields are decoded. */
  function Partly(d: Descriptor, slots: seq<Slot>, n: nat): (r: seq<Slot>)
    requires |slots| == |d.fields| && n <= |slots|
    ensures |r| == |slots|
  {
    slots[..n] + Default(d)[n..]
  }

  /** The required fields among the first n. */
  function SeenBefore(d: Descriptor, n: nat): set<nat>
    requires n <= |d.fields|
  {
    if n == 0 then {} else See(d, n - 1, SeenBefore(d, n - 1))
  }

  lemma {:induction false} SeenInTheEnd(d: Descriptor, n: nat)
    requires n <= |d.fields|
    ensures forall k :: 0 <= k < RequiredBefore(d, n) && k < MAX_REQUIRED_FIELDS ==> k in SeenBefore(d, n)
  {
    if n > 0 {
      SeenInTheEnd(d, n - 1);
    }
  }

  lemma PartlyNothing(d: Descriptor, slots: seq<Slot>)
    requires |slots| == |d.fields|
    ensures Partly(d, slots, 0) == Default(d) && SeenBefore(d, 0) == {}
  {
  }

  lemma {:induction false} TypedShaped(l: LType, v: Datum)
    requires Typed(l, v)
    ensures Shaped(l, v)
    decreases l, 0
  {
    if l.MessageType? {
      TypedMessageShaped(l.d, v.slots);
    }
  }

  lemma {:induction false} TypedMessageShaped(d: Descriptor, slots: seq<Slot>)
    requires TypedMessage(d, slots)
    ensures ShapedMessage(d, slots)
    decreases d, 0
  {
    forall i | 0 <= i < |slots|
      ensures ShapedSlot(d.fields[i], slots[i])
    {
      TypedSlotShaped(d.fields[i], slots[i]);
    }
  }

  lemma {:induction false} TypedSlotShaped(f: Field, s: Slot)
    requires TypedSlot(f, s)
    ensures ShapedSlot(f, s)
    decreases f, 0
  {
    match f.htype
    case Required => TypedShaped(f.ltype, s.v);
    case Optional | OneOf(_) =>
      if s.o.Some? {
        TypedShaped(f.ltype, s.o.value);
      }
    case Repeated(_) =>
  }

  lemma PartlyShaped(d: Descriptor, slots: seq<Slot>, n: nat)
    requires TypedMessage(d, slots) && n <= |slots|
    ensures ShapedMessage(d, Partly(d, slots, n))
  {
    TypedMessageShaped(d, slots);
    DefaultShaped(d);
  }

  lemma {:induction false} FindIs(d: Descriptor, n: nat, from: nat)
    requires TagsOk(d) && from <= n < |d.fields|
    ensures Find(d, d.fields[n].tag, from) == Some(n)
    decreases n - from
  {
    if from < n {
      FindIs(d, n, from + 1);
    }
  }

  /** A tag leads to its field. */
  lemma TagBack(d: Descriptor, slots: seq<Slot>, seen: set<nat>, n: nat, wireType: nat, body: Bytes)
    requires DescriptorOk(d) && ShapedMessage(d, slots) && n < |slots| && wireType < 8
    ensures DecodeFields(d, slots, seen, TagBytes(d.fields[n].tag, wireType) + body) ==
            var r := DecodeField(d, slots, n, wireType, body);
            if r.None? then None else DecodeFields(d, r.value.0, See(d, n, seen), r.value.1)
  {
    hide Varint, Varint32, DecodeField, ShapedMessage, AllSeen;
    ShapedLength(d, slots);
    var tag := d.fields[n].tag;
    assert tag < 0x2000_0000 && tag > 0;
    Varint32Reads(8 * tag + wireType, body);
    FindIs(d, n, 0);
    assert TagBytes(tag, wireType) + body != [];
  }

  /** The rest of a message, encoded, is decoded. */
  ghost predicate Back(d: Descriptor, slots: seq<Slot>, n: nat)
    requires TypedMessage(d, slots) && n <= |slots|
  {
    && EncodeFields(d, slots, n).Some? && ShapedMessage(d, Partly(d, slots, n))
    && DecodeFields(d, Partly(d, slots, n), SeenBefore(d, n), EncodeFields(d, slots, n).value) ==
       if TerminatedFrom(d, slots, n) then Some(slots) else None
  }

  /** The rest of a message comes back, unless a string in it is not terminated. */
  lemma {:induction false} FieldsBack(d: Descriptor, slots: seq<Slot>, n: nat)
    requires DescriptorOk(d) && TypedMessage(d, slots) && ShortMessage(d, slots) && n <= |slots|
    requires EncodeFields(d, slots, n).Some?
    ensures Back(d, slots, n)
    decreases d, |slots| - n, 4, 0
  {
    PartlyShaped(d, slots, n);
    if n == |slots| {
      NothingLeft(d, slots);
    } else {
      FieldsBack(d, slots, n + 1);
      SlotBack(d, slots, n);
    }
  }

  lemma NothingLeft(d: Descriptor, slots: seq<Slot>)
    requires TypedMessage(d, slots) && ShapedMessage(d, Partly(d, slots, |slots|))
    ensures Back(d, slots, |slots|)
  {
    SeenInTheEnd(d, |slots|);
    assert Partly(d, slots, |slots|) == slots;
  }

  lemma InnerOk(d: Descriptor, n: nat)
    requires DescriptorOk(d) && n < |d.fields|
    ensures d.fields[n].ltype.MessageType? ==> DescriptorOk(d.fields[n].ltype.d)
  {
  }

  lemma TerminatedNext(d: Descriptor, slots: seq<Slot>, n: nat)
    requires TypedMessage(d, slots) && n < |slots|
    ensures TerminatedFrom(d, slots, n) <==> TerminatedSlot(d.fields[n], slots[n]) && TerminatedFrom(d, slots, n + 1)
  {
    hide TerminatedSlot;
  }

  lemma PartlyAt(d: Descriptor, slots: seq<Slot>, n: nat)
    requires |slots| == |d.fields| && n < |slots|
    ensures Partly(d, slots, n)[n] == DefaultSlot(d.fields[n])
    ensures Partly(d, slots, n)[n := slots[n]] == Partly(d, slots, n + 1)
    ensures slots[n] == DefaultSlot(d.fields[n]) ==> Partly(d, slots, n) == Partly(d, slots, n + 1)
  {
    hide DefaultSlot;
  }

  /** Choosing a member of a union does not touch the others, which are not there. */
  lemma ChooseIsNext(d: Descriptor, slots: seq<Slot>, n: nat, v: Datum)
    requires TypedMessage(d, slots) && n < |slots| && d.fields[n].htype.OneOf? && slots[n] == Maybe(Some(v))
    ensures Choose(d, Partly(d, slots, n), n, v) == Partly(d, slots, n + 1)
  {
    hide TypedMessage, DefaultSlot;
    TypedLength(d, slots);
    var r := Choose(d, Partly(d, slots, n), n, v);
    forall j | 0 <= j < |slots|
      ensures r[j] == Partly(d, slots, n + 1)[j]
    {
      if j != n {
        OthersNotThere(d, slots, n, j);
      }
    }
  }

  lemma OthersNotThere(d: Descriptor, slots: seq<Slot>, n: nat, j: nat)
    requires TypedMessage(d, slots) && n < |slots| && slots[n].Maybe? && slots[n].o.Some? && j < |slots| && j != n
    ensures SameUnion(d.fields[n], d.fields[j]) ==> slots[j] == Maybe(None) == DefaultSlot(d.fields[j])
  {
    hide Typed;
    assert TypedSlot(d.fields[j], slots[j]);
  }

  /** The value of a field that is not repeated. */
  predicate Single(f: Field, s: Slot, v: Datum) {
    !f.htype.Repeated? && s == if f.htype.Required? then One(v) else Maybe(Some(v))
  }

  lemma SingleBack(d: Descriptor, slots: seq<Slot>, n: nat, v: Datum, rest: Bytes)
    requires DescriptorOk(d) && TypedMessage(d, slots) && n < |slots| && Single(d.fields[n], slots[n], v)
    requires Typed(d.fields[n].ltype, v) && Short(d.fields[n].ltype, v) && EncodeValue(d.fields[n].ltype, v).Some?
    requires ShapedMessage(d, Partly(d, slots, n))
    ensures var f := d.fields[n];
            DecodeField(d, Partly(d, slots, n), n, WireType(f.ltype), EncodeValue(f.ltype, v).value + rest) ==
            if Terminated(f.ltype, v) then Some((Partly(d, slots, n + 1), rest)) else None
    decreases d, |slots| - n, 1, 0
  {
    hide DecodeValue, EncodeValue, Typed, Short, Terminated, DefaultValue, Partly, TypedMessage, ShapedMessage, Choose;
    TypedLength(d, slots);
    var f := d.fields[n];
    InnerOk(d, n);
    DefaultValueShaped(f);
    DefaultIs(f);
    ValueBack(f.ltype, v, DefaultValue(f), rest);
    PartlyAt(d, slots, n);
    if f.htype.OneOf? {
      ChooseIsNext(d, slots, n, v);
    }
  }

  lemma DefaultIs(f: Field)
    ensures f.ltype.MessageType? ==> DefaultValue(f) == Message(Default(f.ltype.d))
  {
  }

  lemma TypedLength(d: Descriptor, slots: seq<Slot>)
    requires TypedMessage(d, slots)
    ensures |slots| == |d.fields|
  {
  }

  /** One field, encoded, is decoded, and so is the rest. */
  lemma SlotBack(d: Descriptor, slots: seq<Slot>, n: nat)
    requires DescriptorOk(d) && TypedMessage(d, slots) && ShortMessage(d, slots) && n < |slots|
    requires EncodeFields(d, slots, n).Some? && ShapedMessage(d, Partly(d, slots, n)) && Back(d, slots, n + 1)
    ensures Back(d, slots, n)
    decreases d, |slots| - n, 3, 0
  {
    hide Back, EncodeFields, ShapedMessage, Typed, Short, EncodeValue, EncodeItems;
    var f, s := d.fields[n], slots[n];
    SlotParts(d, slots, n);
    match f.htype
    case Required => HereBack(d, slots, n, s.v);
    case Optional | OneOf(_) =>
      if s.o.Some? {
        HereBack(d, slots, n, s.o.value);
      } else {
        NoneBack(d, slots, n);
      }
    case Repeated(_) =>
      if s.items == [] {
        NoneBack(d, slots, n);
      } else if Packable(f.ltype) {
        PackedSlotBack(d, slots, n);
      } else {
        ArrayBack(d, slots, n);
      }
  }

  /** The bytes of a field stand before those of the rest. */
  lemma SlotParts(d: Descriptor, slots: seq<Slot>, n: nat)
    requires TypedMessage(d, slots) && n < |slots| && EncodeFields(d, slots, n).Some?
    ensures TypedSlot(d.fields[n], slots[n]) && EncodeSlot(d.fields[n], slots[n]).Some? && EncodeFields(d, slots, n + 1).Some?
    ensures EncodeFields(d, slots, n).value == EncodeSlot(d.fields[n], slots[n]).value + EncodeFields(d, slots, n + 1).value
    ensures ShortMessage(d, slots) ==> ShortSlot(d.fields[n], slots[n])
  {
    hide EncodeSlot, TypedSlot, ShortSlot;
  }

  /** A field that is not there. */
  lemma NoneBack(d: Descriptor, slots: seq<Slot>, n: nat)
    requires TypedMessage(d, slots) && n < |slots| && EncodeFields(d, slots, n).Some? && Back(d, slots, n + 1)
    requires !d.fields[n].htype.Required? && slots[n] == DefaultSlot(d.fields[n])
    ensures Back(d, slots, n)
  {
    hide DecodeFields, ShapedMessage, Typed, EncodeItems, EncodeValue, DefaultValue, Partly, TypedMessage, EncodeFields, TerminatedFrom;
    TypedLength(d, slots);
    SlotParts(d, slots, n);
    PartlyAt(d, slots, n);
    TerminatedNext(d, slots, n);
    assert EncodeSlot(d.fields[n], slots[n]) == Some([]);
    assert EncodeFields(d, slots, n).value == EncodeFields(d, slots, n + 1).value;
  }

  /** A field that is there and not repeated. */
  lemma HereBack(d: Descriptor, slots: seq<Slot>, n: nat, v: Datum)
    requires DescriptorOk(d) && TypedMessage(d, slots) && ShortMessage(d, slots) && n < |slots|
    requires EncodeFields(d, slots, n).Some? && ShapedMessage(d, Partly(d, slots, n)) && Back(d, slots, n + 1)
    requires Single(d.fields[n], slots[n], v)
    ensures Back(d, slots, n)
    decreases d, |slots| - n, 2, 0
  {
    hide DecodeFields, DecodeField, ShapedMessage, Typed, Short, Terminated, EncodeItems, EncodeValue, DefaultValue, Partly,
         TypedMessage, ShortMessage, EncodeFields, TerminatedFrom, TagBytes, See, DescriptorOk;
    TypedLength(d, slots);
    SlotParts(d, slots, n);
    var f, rest := d.fields[n], EncodeFields(d, slots, n + 1).value;
    var body := EncodeValue(f.ltype, v).value + rest;
    assert EncodeFields(d, slots, n).value == TagBytes(f.tag, WireType(f.ltype)) + body;
    TagBack(d, Partly(d, slots, n), SeenBefore(d, n), n, WireType(f.ltype), body);
    SingleBack(d, slots, n, v, rest);
    TerminatedNext(d, slots, n);
  }

  /** A packed array. */
  lemma PackedSlotBack(d: Descriptor, slots: seq<Slot>, n: nat)
    requires DescriptorOk(d) && TypedMessage(d, slots) && ShortMessage(d, slots) && n < |slots|
    requires EncodeFields(d, slots, n).Some? && ShapedMessage(d, Partly(d, slots, n)) && Back(d, slots, n + 1)
    requires d.fields[n].htype.Repeated? && Packable(d.fields[n].ltype) && slots[n].Many? && slots[n].items != []
    ensures Back(d, slots, n)
  {
    hide DecodeFields, DecodePacked, ShapedMessage, Typed, Short, EncodeItems, EncodeValue, DefaultValue, Partly,
         TypedMessage, ShortMessage, EncodeFields, TerminatedFrom, TagBytes, See, DescriptorOk, Sub, WithLength;
    TypedLength(d, slots);
    SlotParts(d, slots, n);
    var f, items, rest := d.fields[n], slots[n].items, EncodeFields(d, slots, n + 1).value;
    var packed := EncodeItems([], f.ltype, items).value;
    var body := WithLength(packed) + rest;
    assert EncodeFields(d, slots, n).value == TagBytes(f.tag, WT_STRING) + body;
    TagBack(d, Partly(d, slots, n), SeenBefore(d, n), n, WT_STRING, body);
    LengthBack(packed, rest);
    PackedBack(f.ltype, [], items, f.htype.arraySize);
    PartlyAt(d, slots, n);
    assert [] + items == items;
    TerminatedNext(d, slots, n);
  }

  /** An array whose items have tags. */
  lemma ArrayBack(d: Descriptor, slots: seq<Slot>, n: nat)
    requires DescriptorOk(d) && TypedMessage(d, slots) && ShortMessage(d, slots) && n < |slots|
    requires EncodeFields(d, slots, n).Some? && ShapedMessage(d, Partly(d, slots, n)) && Back(d, slots, n + 1)
    requires d.fields[n].htype.Repeated? && !Packable(d.fields[n].ltype) && slots[n].Many? && slots[n].items != []
    ensures Back(d, slots, n)
    decreases d, |slots| - n, 2, 0
  {
    hide DecodeFields, ShapedMessage, Typed, Short, Terminated, EncodeItems, EncodeValue, DefaultValue, Partly,
         TypedMessage, ShortMessage, EncodeFields, TerminatedFrom, TagBytes, See, DescriptorOk, ItemsBack;
    TypedLength(d, slots);
    SlotParts(d, slots, n);
    var items := slots[n].items;
    assert items[0..] == items && items[..0] == [];
    PartlyAt(d, slots, n);
    EachBack(d, slots, n, 0);
    FirstItems(d, slots, n);
  }

  /** The message while the field's items are decoded. */
  function WithItems(d: Descriptor, slots: seq<Slot>, n: nat, k: nat): seq<Slot>
    requires |slots| == |d.fields| && n < |slots| && slots[n].Many? && k <= |slots[n].items|
  {
    Partly(d, slots, n)[n := Many(slots[n].items[..k])]
  }

  /** The items from the k-th on and the rest of the message, encoded, are decoded. */
  ghost predicate ItemsBack(d: Descriptor, slots: seq<Slot>, n: nat, k: nat)
    requires TypedMessage(d, slots) && n < |slots| && TypedSlot(d.fields[n], slots[n])
    requires d.fields[n].htype.Repeated? && k <= |slots[n].items|
  {
    var f, items := d.fields[n], slots[n].items;
    var e := EncodeItems(TagBytes(f.tag, WireType(f.ltype)), f.ltype, items[k..]);
    && e.Some? && EncodeFields(d, slots, n + 1).Some? && ShapedMessage(d, WithItems(d, slots, n, k))
    && DecodeFields(d, WithItems(d, slots, n, k), SeenBefore(d, n), e.value + EncodeFields(d, slots, n + 1).value) ==
       if (forall i :: k <= i < |items| ==> Terminated(f.ltype, items[i])) && TerminatedFrom(d, slots, n + 1) then Some(slots) else None
  }

  /** All items: the field. */
  lemma FirstItems(d: Descriptor, slots: seq<Slot>, n: nat)
    requires TypedMessage(d, slots) && n < |slots| && TypedSlot(d.fields[n], slots[n])
    requires d.fields[n].htype.Repeated? && !Packable(d.fields[n].ltype) && slots[n].items != []
    requires EncodeFields(d, slots, n).Some? && ShapedMessage(d, Partly(d, slots, n)) && ItemsBack(d, slots, n, 0)
    ensures Back(d, slots, n)
  {
    hide DecodeFields, ShapedMessage, Typed, Terminated, EncodeItems, EncodeValue, DefaultValue, Partly,
         TypedMessage, EncodeFields, TerminatedFrom, TagBytes;
    TypedLength(d, slots);
    SlotParts(d, slots, n);
    PartlyAt(d, slots, n);
    TerminatedNext(d, slots, n);
    var items := slots[n].items;
    assert items[0..] == items && items[..0] == [];
    assert Partly(d, slots, n)[n := Many([])] == Partly(d, slots, n);
  }

  /** No item: the rest of the message. */
  lemma LastItems(d: Descriptor, slots: seq<Slot>, n: nat)
    requires TypedMessage(d, slots) && n < |slots| && TypedSlot(d.fields[n], slots[n])
    requires d.fields[n].htype.Repeated? && Back(d, slots, n + 1)
    ensures ItemsBack(d, slots, n, |slots[n].items|)
  {
    hide DecodeFields, ShapedMessage, Typed, Terminated, EncodeValue, DefaultValue, Partly, TypedMessage, EncodeFields, TerminatedFrom, TagBytes;
    TypedLength(d, slots);
    PartlyAt(d, slots, n);
    var items, rest := slots[n].items, EncodeFields(d, slots, n + 1).value;
    assert items[|items|..] == [] && items[..|items|] == items;
    assert [] + rest == rest;
  }

  lemma {:induction false} EachBack(d: Descriptor, slots: seq<Slot>, n: nat, k: nat)
    requires DescriptorOk(d) && TypedMessage(d, slots) && ShortMessage(d, slots) && n < |slots|
    requires TypedSlot(d.fields[n], slots[n]) && EncodeSlot(d.fields[n], slots[n]).Some? && ShapedMessage(d, Partly(d, slots, n))
    requires Back(d, slots, n + 1) && d.fields[n].htype.Repeated? && !Packable(d.fields[n].ltype) && slots[n].items != []
    requires k <= |slots[n].items|
    requires EncodeItems(TagBytes(d.fields[n].tag, WireType(d.fields[n].ltype)), d.fields[n].ltype, slots[n].items[k..]).Some?
    ensures ItemsBack(d, slots, n, k)
    decreases d, |slots| - n, 1, |slots[n].items| - k
  {
    hide *;
    TypedLength(d, slots);
    IsMany(d.fields[n], slots[n]);
    if k == |slots[n].items| {
      LastItems(d, slots, n);
    } else {
      ItemParts(d.fields[n], slots[n].items, k);
      EachBack(d, slots, n, k + 1);
      ItemBack(d, slots, n, k);
    }
  }

  lemma IsMany(f: Field, s: Slot)
    requires TypedSlot(f, s) && f.htype.Repeated?
    ensures s.Many?
  {
  }

  /** The bytes of an item stand before those of the other items. */
  lemma ItemParts(f: Field, items: seq<Datum>, k: nat)
    requires k < |items| && f.htype.Repeated? && TypedSlot(f, Many(items))
    requires EncodeItems(TagBytes(f.tag, WireType(f.ltype)), f.ltype, items[k..]).Some?
    ensures Typed(f.ltype, items[k]) && forall i :: k < i < |items| ==> Typed(f.ltype, items[i])
    ensures var tag := TagBytes(f.tag, WireType(f.ltype));
            var e, more := EncodeValue(f.ltype, items[k]), EncodeItems(tag, f.ltype, items[k + 1..]);
            && e.Some? && more.Some? && EncodeItems(tag, f.ltype, items[k..]).value == tag + (e.value + more.value)
  {
    hide Typed, EncodeValue, TagBytes;
    assert items[k..][1..] == items[k + 1..];
  }

  lemma ItemBack(d: Descriptor, slots: seq<Slot>, n: nat, k: nat)
    requires DescriptorOk(d) && TypedMessage(d, slots) && ShortMessage(d, slots) && n < |slots|
    requires TypedSlot(d.fields[n], slots[n]) && EncodeSlot(d.fields[n], slots[n]).Some? && ShapedMessage(d, Partly(d, slots, n))
    requires d.fields[n].htype.Repeated? && !Packable(d.fields[n].ltype) && k < |slots[n].items|
    requires EncodeItems(TagBytes(d.fields[n].tag, WireType(d.fields[n].ltype)), d.fields[n].ltype, slots[n].items[k..]).Some?
    requires ItemsBack(d, slots, n, k + 1)
    ensures ItemsBack(d, slots, n, k)
    decreases d, |slots| - n, 0, 0
  {
    hide DecodeFields, DecodeValue, ShapedMessage, Typed, Short, Terminated, EncodeItems, EncodeValue, DefaultValue, Partly,
         TypedMessage, ShortMessage, EncodeFields, TerminatedFrom, TagBytes, See, DescriptorOk;
    TypedLength(d, slots);
    var f, items, rest := d.fields[n], slots[n].items, EncodeFields(d, slots, n + 1).value;
    ItemParts(f, items, k);
    var tag := TagBytes(f.tag, WireType(f.ltype));
    var e, more := EncodeValue(f.ltype, items[k]).value, EncodeItems(tag, f.ltype, items[k + 1..]).value;
    assert (tag + (e + more)) + rest == tag + (e + (more + rest));
    WithItemsShaped(d, slots, n, k);
    TagBack(d, WithItems(d, slots, n, k), SeenBefore(d, n), n, WireType(f.ltype), e + (more + rest));
    SlotShort(d, slots, n);
    InnerOk(d, n);
    DefaultValueShaped(f);
    DefaultIs(f);
    ValueBack(f.ltype, items[k], DefaultValue(f), more + rest);
    assert items[..k] + [items[k]] == items[..k + 1];
    RepeatedIsNotRequired(d, n, SeenBefore(d, n));
    assert WithItems(d, slots, n, k)[n] == Many(items[..k]);
    assert DecodeField(d, WithItems(d, slots, n, k), n, WireType(f.ltype), e + (more + rest)) ==
           if Terminated(f.ltype, items[k]) then Some((WithItems(d, slots, n, k)[n := Many(items[..k + 1])], more + rest)) else None;
    assert WithItems(d, slots, n, k)[n := Many(items[..k + 1])] == WithItems(d, slots, n, k + 1);
    assert EncodeItems(tag, f.ltype, items[k..]).value + rest == tag + (e + (more + rest));
  }

  lemma RepeatedIsNotRequired(d: Descriptor, n: nat, seen: set<nat>)
    requires n < |d.fields| && d.fields[n].htype.Repeated?
    ensures See(d, n, seen) == seen
  {
  }

  lemma SlotShort(d: Descriptor, slots: seq<Slot>, n: nat)
    requires TypedMessage(d, slots) && ShortMessage(d, slots) && n < |slots|
    ensures TypedSlot(d.fields[n], slots[n]) && ShortSlot(d.fields[n], slots[n])
  {
    hide TypedSlot, ShortSlot;
  }

  lemma WithItemsShaped(d: Descriptor, slots: seq<Slot>, n: nat, k: nat)
    requires |slots| == |d.fields| && n < |slots| && d.fields[n].htype.Repeated? && slots[n].Many? && k <= |slots[n].items|
    requires ShapedMessage(d, Partly(d, slots, n))
    ensures ShapedMessage(d, WithItems(d, slots, n, k))
  {
    hide Shaped, Partly;
  }

  // ------------------------------------------------------------------ the whole message

  /** A message whose strings are terminated is decoded again; any other one, although it
      is encoded, is not. */
  lemma RoundTrip(d: Descriptor, slots: seq<Slot>)
    requires DescriptorOk(d) && TypedMessage(d, slots) && ShortMessage(d, slots) && Encode(d, slots).Some?
    ensures Decode(d, Encode(d, slots).value) == if TerminatedFrom(d, slots, 0) then Some(slots) else None
  {
    hide DecodeFields, EncodeFields, TerminatedFrom, Partly;
    FieldsBack(d, slots, 0);
    TypedLength(d, slots);
    PartlyNothing(d, slots);
  }

  /** Encoding into a buffer of some size and decoding what is in it: the message comes
      back exactly if it fits, and if its strings are terminated. */
  method SendAndReceive(d: Descriptor, slots: seq<Slot>, bufsize: nat) returns (size: Option<nat>, r: Option<seq<Slot>>)
    requires DescriptorOk(d) && TypedMessage(d, slots) && ShortMessage(d, slots)
    ensures size.Some? <==> Encode(d, slots).Some?
    ensures r.Some? <==> size.Some? && size.value <= bufsize && TerminatedFrom(d, slots, 0)
    ensures r.Some? ==> r.value == slots
  {
    hide TypedMessage, ShortMessage, TerminatedFrom, Encode, Decode;
    var buffer;
    size, buffer := SizeAndEncode(d, slots, bufsize);
    if buffer.None? {
      return size, None;
    }
    RoundTrip(d, slots);
    r := DecodeMessage(d, buffer.value);
  }

  /** A string that fills its field to the last character is encoded but not decoded. */
  lemma FullString()
    ensures var d, m := Descriptor([Field(1, Required, StringType(1), Blob([]))]), [One(Blob([65]))];
            TypedMessage(d, m) && Encode(d, m).Some? && Decode(d, Encode(d, m).value) == None
  {
    var d, m := Descriptor([Field(1, Required, StringType(1), Blob([]))]), [One(Blob([65]))];
    assert TypedSlot(d.fields[0], m[0]);
    assert EncodeFields(d, m, 1) == Some([]);
    RoundTrip(d, m);
  }
}
