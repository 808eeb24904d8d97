/** The encoder of nanopb (pb_encode.c): output streams, which may only count, and the
    two passes over submessages and packed arrays. */
module Encoders {
  import opened Keys
  import opened Coding
  import opened Messages

  /** The bytes of a varint so far, each with the top bit; in the end the last one has it too. */
  ghost predicate Pending(value: nat, buffer: Bytes, v: nat) {
    if v > 0 then Varint(value) == buffer + Varint(v)
    else buffer != [] && buffer[|buffer| - 1] >= 128 &&
         Varint(value) == buffer[..|buffer| - 1] + [buffer[|buffer| - 1] - 128]
  }

  lemma PendingNext(value: nat, buffer: Bytes, v: nat)
    requires v > 0 && Pending(value, buffer, v)
    ensures Pending(value, buffer + [v % 128 + 128], v / 128)
  {
    var more := buffer + [v % 128 + 128];
    if v >= 128 {
      assert Varint(value) == buffer + ([v % 128 + 128] + Varint(v / 128)) == more + Varint(v / 128);
    } else {
      assert more[..|more| - 1] == buffer && Varint(v) == [v];
    }
  }

  lemma PendingStart(value: nat)
    ensures value > 0 ==> Pending(value, [], value)
    ensures value < 128 ==> Varint(value) == [value]
  {
    assert [] + Varint(value) == Varint(value);
  }

  lemma PendingEnd(value: nat, buffer: Bytes)
    requires Pending(value, buffer, 0)
    ensures buffer != [] && buffer[|buffer| - 1] >= 128
    ensures Varint(value) == buffer[..|buffer| - 1] + [buffer[|buffer| - 1] - 128]
  {
  }

  class OStream {
    const sizing: bool               // no callback: bytes are only counted
    const maxSize: nat
    var bytesWritten: nat
    var out: Bytes                   // what the callback was given

    ghost predicate Ok()
      reads this
    {
      sizing || bytesWritten <= maxSize
    }

    constructor (sizing: bool, maxSize: nat, out: Bytes)
      ensures Ok() && this.sizing == sizing && this.maxSize == maxSize && this.out == out && bytesWritten == 0
    {
      this.sizing, this.maxSize, this.out, bytesWritten := sizing, maxSize, out, 0;
    }

    /** The bytes were all written, which happens exactly if there are any and they fit. */
    ghost predicate Wrote(ok: bool, written: nat, before: Bytes, e: Option<Bytes>)
      reads this
    {
      && Ok()
      && (ok <==> e.Some? && (sizing || written + |e.value| <= maxSize))
      && (ok ==> bytesWritten == written + |e.value| && (!sizing ==> out == before + e.value))
    }

    /** pb_write. */
    method Write(buf: Bytes) returns (ok: bool)
      requires Ok()
      modifies this
      ensures Wrote(ok, old(bytesWritten), old(out), Some(buf))
    {
      if |buf| > 0 && !sizing {
        if bytesWritten + |buf| > maxSize {
          return false;
        }
        out := out + buf;
      }
      bytesWritten := bytesWritten + |buf|;
      return true;
    }

    /** pb_write without a buffer, on a stream that only counts. */
    method Count(n: nat)
      requires Ok() && sizing
      modifies this
      ensures Ok() && bytesWritten == old(bytesWritten) + n
    {
      bytesWritten := bytesWritten + n;
    }

    method EncodeVarint(value: nat) returns (ok: bool)
      requires Ok()
      modifies this
      ensures Wrote(ok, old(bytesWritten), old(out), Some(Varint(value)))
    {
      hide Varint, Pending;
      PendingStart(value);
      if value <= 0x7F {
        ok := Write([value]);
        return;
      }
      var buffer: Bytes, v: nat := [], value;
      while v > 0
        invariant Pending(value, buffer, v)
        invariant Ok() && bytesWritten == old(bytesWritten) && out == old(out)
      {
        PendingNext(value, buffer, v);
        buffer, v := buffer + [v % 128 + 128], v / 128;
      }
      PendingEnd(value, buffer);
      buffer := buffer[..|buffer| - 1] + [buffer[|buffer| - 1] - 128];
      ok := Write(buffer);
    }

    method EncodeTag(wireType: nat, tag: nat) returns (ok: bool)
      requires Ok()
      modifies this
      ensures Wrote(ok, old(bytesWritten), old(out), Some(TagBytes(tag, wireType)))
    {
      ok := EncodeVarint(8 * tag + wireType);
    }

    /** pb_encode_string. */
    method EncodeString(buf: Bytes) returns (ok: bool)
      requires Ok()
      modifies this
      ensures Wrote(ok, old(bytesWritten), old(out), Some(WithLength(buf)))
    {
      ok := EncodeVarint(|buf|);
      if ok {
        ok := Write(buf);
      }
    }
  }

  /** The encoders of PB_ENCODERS. */
  method EncodeOne(stream: OStream, l: LType, v: Datum) returns (ok: bool)
    requires stream.Ok() && Typed(l, v)
    modifies stream
    ensures stream.Wrote(ok, old(stream.bytesWritten), old(stream.out), EncodeValue(l, v))
    decreases l, 0
  {
    match l
    case BoolType => ok := stream.EncodeVarint(v.n);
    case VarintType(w) => Widths(v.n, w); ok := stream.EncodeVarint(ToUnsigned(v.n));
    case UVarintType(_) => ok := stream.EncodeVarint(v.n);
    case SVarintType(w) => Widths(v.n, w); ok := stream.EncodeVarint(ZigZag(v.n));
    case Fixed32Type => ok := stream.Write(EncodeFixed32(v.n));
    case Fixed64Type => ok := stream.Write(EncodeFixed64(v.n));
    case BytesType(room) =>
      if |v.b| > room {
        return false;
      }
      ok := stream.EncodeString(v.b);
    case StringType(_) => ok := stream.EncodeString(v.b);
    case FixedBytesType(_) => ok := stream.EncodeString(v.b);
    case MessageType(d) => ok := EncodeSubmessage(stream, d, v.slots);
  }

  /** pb_encode_submessage: a first pass counts, the second writes into a stream that has
      exactly that much room. */
  method EncodeSubmessage(stream: OStream, d: Descriptor, slots: seq<Slot>) returns (ok: bool)
    requires stream.Ok() && TypedMessage(d, slots)
    modifies stream
    ensures var e := EncodeFields(d, slots, 0);
            stream.Wrote(ok, old(stream.bytesWritten), old(stream.out), if e.None? then None else Some(WithLength(e.value)))
    decreases d, 3
  {
    var substream := new OStream(true, 0, []);
    ok := EncodeMessage(substream, d, slots);
    if !ok {
      return;
    }
    var size := substream.bytesWritten;
    ok := stream.EncodeVarint(size);
    if !ok {
      return;
    }
    if stream.sizing {
      stream.Count(size);
      return true;
    }
    if stream.bytesWritten + size > stream.maxSize {
      return false;
    }
    substream := new OStream(false, size, stream.out);
    ok := EncodeMessage(substream, d, slots);
    stream.bytesWritten := stream.bytesWritten + substream.bytesWritten;
    stream.out := substream.out;
    if substream.bytesWritten != size {
      return false;
    }
  }

  /** encode_array. */
  method EncodeArray(stream: OStream, f: Field, items: seq<Datum>) returns (ok: bool)
    requires stream.Ok() && f.htype.Repeated? && TypedSlot(f, Many(items))
    modifies stream
    ensures stream.Wrote(ok, old(stream.bytesWritten), old(stream.out), EncodeSlot(f, Many(items)))
    decreases f, 5
  {
    if items == [] {
      return true;
    }
    if |items| > f.htype.arraySize {
      return false;
    }
    if Packable(f.ltype) {
      ok := EncodePacked(stream, f, items);
    } else {
      ok := EncodeEach(stream, f, items);
    }
  }

  /** The size of a packed array, from the width of its items or by counting. */
  method SizeOfItems(f: Field, items: seq<Datum>) returns (ok: bool, size: nat)
    requires Packable(f.ltype) && forall i :: 0 <= i < |items| ==> Typed(f.ltype, items[i])
    ensures ok <==> EncodeItems([], f.ltype, items).Some?
    ensures ok ==> size == |EncodeItems([], f.ltype, items).value|
    decreases f, 3
  {
    PackedSize(f.ltype, items);
    ok := true;
    if f.ltype.Fixed32Type? {
      size := 4 * |items|;
    } else if f.ltype.Fixed64Type? {
      size := 8 * |items|;
    } else {
      var sizestream := new OStream(true, 0, []);
      ok := EncodeRun(sizestream, f, items);
      size := sizestream.bytesWritten;
    }
  }

  /** The packed form: the tag, the size of all items, and the items. */
  method EncodePacked(stream: OStream, f: Field, items: seq<Datum>) returns (ok: bool)
    requires stream.Ok() && Packable(f.ltype) && forall i :: 0 <= i < |items| ==> Typed(f.ltype, items[i])
    modifies stream
    ensures var e := EncodeItems([], f.ltype, items);
            stream.Wrote(ok, old(stream.bytesWritten), old(stream.out),
                         if e.None? then None else Some(TagBytes(f.tag, WT_STRING) + WithLength(e.value)))
    decreases f, 4
  {
    ok := stream.EncodeTag(WT_STRING, f.tag);
    if !ok {
      return;
    }
    var size;
    ok, size := SizeOfItems(f, items);
    if !ok {
      return;
    }
    ok := EncodeSized(stream, f, items, size);
  }

  /** The size of all items and the items, which are not encoded once more to be counted. */
  method EncodeSized(stream: OStream, f: Field, items: seq<Datum>, size: nat) returns (ok: bool)
    requires stream.Ok() && forall i :: 0 <= i < |items| ==> Typed(f.ltype, items[i])
    requires var e := EncodeItems([], f.ltype, items); e.Some? && size == |e.value|
    modifies stream
    ensures stream.Wrote(ok, old(stream.bytesWritten), old(stream.out), Some(WithLength(EncodeItems([], f.ltype, items).value)))
    decreases f, 3
  {
    ok := stream.EncodeVarint(size);
    if !ok {
      return;
    }
    if stream.sizing {
      stream.Count(size);
      return true;
    }
    ok := EncodeRun(stream, f, items);
  }

  /** Numbers can always be encoded, and those of fixed width take what the width says. */
  lemma {:induction false} PackedSize(l: LType, items: seq<Datum>)
    requires Packable(l) && forall i :: 0 <= i < |items| ==> Typed(l, items[i])
    ensures EncodeItems([], l, items).Some?
    ensures l.Fixed32Type? ==> |EncodeItems([], l, items).value| == 4 * |items|
    ensures l.Fixed64Type? ==> |EncodeItems([], l, items).value| == 8 * |items|
    decreases |items|
  {
    if items != [] {
      PackedSize(l, items[1..]);
    }
  }

  /** The items without tags. */
  method EncodeRun(stream: OStream, f: Field, items: seq<Datum>) returns (ok: bool)
    requires stream.Ok() && forall i :: 0 <= i < |items| ==> Typed(f.ltype, items[i])
    modifies stream
    ensures stream.Wrote(ok, old(stream.bytesWritten), old(stream.out), EncodeItems([], f.ltype, items))
    decreases f, 2
  {
    ghost var done: Bytes := [];
    assert items[0..] == items;
    StartItems([], f.ltype, items);
    for i := 0 to |items|
      invariant stream.Ok() && stream.bytesWritten == old(stream.bytesWritten) + |done|
      invariant !stream.sizing ==> stream.out == old(stream.out) + done
      invariant EncodeItems([], f.ltype, items) == Cat(Some(done), EncodeItems([], f.ltype, items[i..]))
    {
      NextItem([], f.ltype, items, i, done);
      ok := EncodeOne(stream, f.ltype, items[i]);
      if !ok {
        return;
      }
      done := done + ([] + EncodeValue(f.ltype, items[i]).value);
    }
    assert items[|items|..] == [];
    return true;
  }

  lemma StartItems(prefix: Bytes, l: LType, items: seq<Datum>)
    requires forall i :: 0 <= i < |items| ==> Typed(l, items[i])
    ensures EncodeItems(prefix, l, items) == Cat(Some([]), EncodeItems(prefix, l, items))
  {
    var e := EncodeItems(prefix, l, items);
    if e.Some? {
      assert [] + e.value == e.value;
    }
  }

  /** One more item after what is done. */
  lemma NextItem(prefix: Bytes, l: LType, items: seq<Datum>, i: nat, done: Bytes)
    requires i < |items| && forall j :: 0 <= j < |items| ==> Typed(l, items[j])
    ensures var e := EncodeValue(l, items[i]);
            Cat(Some(done), EncodeItems(prefix, l, items[i..])) ==
            if e.None? then None else Cat(Some(done + (prefix + e.value)), EncodeItems(prefix, l, items[i + 1..]))
  {
    assert items[i..][1..] == items[i + 1..];
    var e, rest := EncodeValue(l, items[i]), EncodeItems(prefix, l, items[i + 1..]);
    if e.Some? && rest.Some? {
      assert done + ((prefix + e.value) + rest.value) == (done + (prefix + e.value)) + rest.value;
    }
  }

  /** Every item with the tag of the field. */
  method EncodeEach(stream: OStream, f: Field, items: seq<Datum>) returns (ok: bool)
    requires stream.Ok() && forall i :: 0 <= i < |items| ==> Typed(f.ltype, items[i])
    modifies stream
    ensures stream.Wrote(ok, old(stream.bytesWritten), old(stream.out),
                         EncodeItems(TagBytes(f.tag, WireType(f.ltype)), f.ltype, items))
    decreases f, 2
  {
    ghost var done: Bytes, tag := [], TagBytes(f.tag, WireType(f.ltype));
    assert items[0..] == items;
    StartItems(tag, f.ltype, items);
    for i := 0 to |items|
      invariant stream.Ok() && stream.bytesWritten == old(stream.bytesWritten) + |done|
      invariant !stream.sizing ==> stream.out == old(stream.out) + done
      invariant EncodeItems(tag, f.ltype, items) == Cat(Some(done), EncodeItems(tag, f.ltype, items[i..]))
    {
      NextItem(tag, f.ltype, items, i, done);
      ok := EncodeTagged(stream, f, items[i]);
      if !ok {
        return;
      }
      done := done + (tag + EncodeValue(f.ltype, items[i]).value);
    }
    assert items[|items|..] == [];
    return true;
  }

  /** pb_encode_tag_for_field and the encoder of the field's type. */
  method EncodeTagged(stream: OStream, f: Field, v: Datum) returns (ok: bool)
    requires stream.Ok() && Typed(f.ltype, v)
    modifies stream
    ensures stream.Wrote(ok, old(stream.bytesWritten), old(stream.out),
                         Cat(Some(TagBytes(f.tag, WireType(f.ltype))), EncodeValue(f.ltype, v)))
    decreases f, 1
  {
    ok := stream.EncodeTag(WireType(f.ltype), f.tag);
    if ok {
      ok := EncodeOne(stream, f.ltype, v);
    }
  }

  /** encode_basic_field. */
  method EncodeField(stream: OStream, f: Field, s: Slot) returns (ok: bool)
    requires stream.Ok() && TypedSlot(f, s)
    modifies stream
    ensures stream.Wrote(ok, old(stream.bytesWritten), old(stream.out), EncodeSlot(f, s))
    decreases f, 6
  {
    match f.htype
    case Required => ok := EncodeTagged(stream, f, s.v);
    case Optional =>
      ok := true;
      if s.o.Some? {
        ok := EncodeTagged(stream, f, s.o.value);
      }
    case OneOf(_) =>
      ok := true;
      if s.o.Some? {
        ok := EncodeTagged(stream, f, s.o.value);
      }
    case Repeated(_) => ok := EncodeArray(stream, f, s.items);
  }

  /** pb_encode: a buffer takes the message exactly if no byte field or array is too full
      and all its bytes fit; counting takes it whatever its size. */
  method EncodeMessage(stream: OStream, d: Descriptor, slots: seq<Slot>) returns (ok: bool)
    requires stream.Ok() && TypedMessage(d, slots)
    modifies stream
    ensures stream.Wrote(ok, old(stream.bytesWritten), old(stream.out), EncodeFields(d, slots, 0))
    decreases d, 2
  {
    ghost var done: Bytes := [];
    StartFields(d, slots);
    for i := 0 to |d.fields|
      invariant stream.Ok() && stream.bytesWritten == old(stream.bytesWritten) + |done|
      invariant !stream.sizing ==> stream.out == old(stream.out) + done
      invariant EncodeFields(d, slots, 0) == Cat(Some(done), EncodeFields(d, slots, i))
    {
      NextField(d, slots, i, done);
      ok := EncodeField(stream, d.fields[i], slots[i]);
      if !ok {
        return;
      }
      done := done + EncodeSlot(d.fields[i], slots[i]).value;
    }
    return true;
  }

  lemma StartFields(d: Descriptor, slots: seq<Slot>)
    requires TypedMessage(d, slots)
    ensures EncodeFields(d, slots, 0) == Cat(Some([]), EncodeFields(d, slots, 0))
  {
    var e := EncodeFields(d, slots, 0);
    if e.Some? {
      assert [] + e.value == e.value;
    }
  }

  lemma NextField(d: Descriptor, slots: seq<Slot>, i: nat, done: Bytes)
    requires TypedMessage(d, slots) && i < |slots|
    ensures var e := EncodeSlot(d.fields[i], slots[i]);
            Cat(Some(done), EncodeFields(d, slots, i)) ==
            if e.None? then None else Cat(Some(done + e.value), EncodeFields(d, slots, i + 1))
  {
    var e, rest := EncodeSlot(d.fields[i], slots[i]), EncodeFields(d, slots, i + 1);
    if e.Some? && rest.Some? {
      assert done + (e.value + rest.value) == (done + e.value) + rest.value;
    }
  }

  /** pb_get_encoded_size, and then pb_encode into a buffer of some size: the sizes agree,
      and the buffer takes the message exactly if it is at least that big. */
  method SizeAndEncode(d: Descriptor, slots: seq<Slot>, bufsize: nat) returns (size: Option<nat>, r: Option<Bytes>)
    requires TypedMessage(d, slots)
    ensures size.Some? <==> Encode(d, slots).Some?
    ensures r.Some? <==> size.Some? && size.value <= bufsize
    ensures r.Some? ==> r == Encode(d, slots) && |r.value| == size.value
  {
    var counter := new OStream(true, 0, []);
    var ok := EncodeMessage(counter, d, slots);
    size := if ok then Some(counter.bytesWritten) else None;
    var stream := new OStream(false, bufsize, []);
    ok := EncodeMessage(stream, d, slots);
    r := if ok then Some(stream.out) else None;
    assert ok ==> [] + Encode(d, slots).value == Encode(d, slots).value;
  }
}
