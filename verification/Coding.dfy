/** The fixed and variable length integers of util/coding.cc, on which every stored
    format rests. */
module Coding {
  import opened Keys

  type Byte = b: nat | b < 256
  type Bytes = seq<Byte>

  const WORD := 0x1_0000_0000
  const LONG := 0x1_0000_0000_0000_0000

  // ------------------------------------------------------------------ fixed width

  /** The n low bytes of a number, least significant first. */
  function Fixed(v: nat, n: nat): (r: Bytes)
    ensures |r| == n
  {
    if n == 0 then [] else [v % 256] + Fixed(v / 256, n - 1)
  }

  function FromFixed(b: Bytes): nat {
    if b == [] then 0 else b[0] + 256 * FromFixed(b[1..])
  }

  function Pow256(n: nat): (r: nat)
    ensures r > 0
  {
    if n == 0 then 1 else 256 * Pow256(n - 1)
  }

  lemma {:induction false} FixedRoundTrip(v: nat, n: nat)
    requires v < Pow256(n)
    ensures FromFixed(Fixed(v, n)) == v
  {
    if n > 0 {
      FixedRoundTrip(v / 256, n - 1);
      assert Fixed(v, n)[1..] == Fixed(v / 256, n - 1);
    }
  }

  function EncodeFixed32(v: nat): (r: Bytes)
    requires v < WORD
    ensures |r| == 4 && FromFixed(r) == v
  {
    assert Pow256(4) == WORD;
    FixedRoundTrip(v, 4);
    Fixed(v, 4)
  }

  function EncodeFixed64(v: nat): (r: Bytes)
    requires v < LONG
    ensures |r| == 8 && FromFixed(r) == v
  {
    Pow256Of8();
    FixedRoundTrip(v, 8);
    Fixed(v, 8)
  }

  lemma Pow256Of8()
    ensures Pow256(8) == LONG
  {
    assert Pow256(4) == WORD;
    assert Pow256(6) == 256 * (256 * Pow256(4));
  }

  lemma {:induction false} FromFixedBound(b: Bytes)
    ensures FromFixed(b) < Pow256(|b|)
  {
    if b != [] {
      FromFixedBound(b[1..]);
    }
  }

  // ------------------------------------------------------------------ varints

  /** Seven bits a byte, least significant first; all bytes but the last have the top bit. */
  function Varint(v: nat): (r: Bytes)
    ensures r != []
  {
    if v < 128 then [v] else [v % 128 + 128] + Varint(v / 128)
  }

  /** Reading a varint of at most `most` bytes: its value and how many bytes it takes. */
  function FromVarint(b: Bytes, most: nat): (r: Option<(nat, nat)>)
    ensures r.Some? ==> 0 < r.value.1 <= |b| && r.value.1 <= most
    decreases most
  {
    if most == 0 || b == [] then None
    else if b[0] < 128 then Some((b[0], 1))
    else
      var rest := FromVarint(b[1..], most - 1);
      if rest.None? then None else Some((b[0] % 128 + 128 * rest.value.0, rest.value.1 + 1))
  }

  function Pow128(n: nat): (r: nat)
    ensures r > 0
  {
    if n == 0 then 1 else 128 * Pow128(n - 1)
  }

  /** A number below 128^n takes at most n bytes and is read back, whatever follows it. */
  lemma {:induction false} VarintRoundTrip(v: nat, n: nat, tail: Bytes)
    requires v < Pow128(n) && n > 0
    ensures FromVarint(Varint(v) + tail, n) == Some((v, |Varint(v)|))
    decreases n
  {
    var b := Varint(v) + tail;
    if v >= 128 {
      assert n > 1;
      VarintRoundTrip(v / 128, n - 1, tail);
      assert b[1..] == Varint(v / 128) + tail;
    }
  }

  /** The unrolled branches of EncodeVarint32. */
  method EncodeVarint32(v: nat) returns (r: Bytes)
    requires v < WORD
    ensures r == Varint(v) && |r| <= 5
  {
    VarintSteps(v);
    if v < 0x80 {
      r := [v];
    } else if v < 0x4000 {
      r := [v % 128 + 128, v / 0x80];
    } else if v < 0x20_0000 {
      r := [v % 128 + 128, v / 0x80 % 128 + 128, v / 0x4000];
    } else if v < 0x1000_0000 {
      r := [v % 128 + 128, v / 0x80 % 128 + 128, v / 0x4000 % 128 + 128, v / 0x20_0000];
    } else {
      r := [v % 128 + 128, v / 0x80 % 128 + 128, v / 0x4000 % 128 + 128, v / 0x20_0000 % 128 + 128, v / 0x1000_0000];
    }
  }

  lemma VarintSteps(v: nat)
    ensures v >= 0x80 ==> Varint(v) == [v % 128 + 128] + Varint(v / 0x80)
    ensures v >= 0x4000 ==> Varint(v / 0x80) == [v / 0x80 % 128 + 128] + Varint(v / 0x4000)
    ensures v >= 0x20_0000 ==> Varint(v / 0x4000) == [v / 0x4000 % 128 + 128] + Varint(v / 0x20_0000)
    ensures v >= 0x1000_0000 ==> Varint(v / 0x20_0000) == [v / 0x20_0000 % 128 + 128] + Varint(v / 0x1000_0000)
  {
    Shifts(v);
    var a, b, c := v / 0x80, v / 0x4000, v / 0x20_0000;
    assert v >= 0x80 ==> Varint(v) == [v % 128 + 128] + Varint(v / 128);
    assert v >= 0x4000 ==> Varint(a) == [a % 128 + 128] + Varint(a / 128);
    assert v >= 0x20_0000 ==> Varint(b) == [b % 128 + 128] + Varint(b / 128);
    assert v >= 0x1000_0000 ==> Varint(c) == [c % 128 + 128] + Varint(c / 128);
  }

  lemma Shifts(v: nat)
    ensures v / 0x80 / 128 == v / 0x4000 && v / 0x4000 / 128 == v / 0x20_0000 && v / 0x20_0000 / 128 == v / 0x1000_0000
  {
  }

  /** The loop of EncodeVarint64. */
  method EncodeVarint64(v: nat) returns (r: Bytes)
    requires v < LONG
    ensures r == Varint(v)
  {
    hide Varint;
    r := [];
    var w: nat := v;
    while w >= 128
      invariant Varint(v) == r + Varint(w)
    {
      VarintNext(r, w);
      r := r + [w % 128 + 128];
      w := w / 128;
    }
    VarintLast(w);
    r := r + [w];
  }

  lemma VarintNext(r: Bytes, w: nat)
    requires w >= 128
    ensures r + Varint(w) == r + [w % 128 + 128] + Varint(w / 128)
  {
  }

  lemma VarintLast(w: nat)
    requires w < 128
    ensures Varint(w) == [w]
  {
  }

  /** What seven bits contribute at a weight. */
  function Part(bits: nat, weight: nat): nat {
    bits * weight
  }

  /** A number cut to a word. */
  function Wrap(x: nat, word: nat): nat
    requires word > 0
  {
    x % word
  }

  /** The first p bytes of a varint are read: `total` is what they contribute, and
      `weight` is the weight of the next one. */
  ghost predicate Reading(b: Bytes, most: nat, p: nat, weight: nat, total: nat) {
    && p <= |b| && p <= most && weight == Pow128(p)
    && var all, rest := FromVarint(b, most), FromVarint(b[p..], most - p);
       && (all.None? <==> rest.None?)
       && (all.Some? ==> all.value.1 == p + rest.value.1 && all.value.0 == total + weight * rest.value.0)
  }

  lemma ReadingStart(b: Bytes, most: nat)
    ensures Reading(b, most, 0, 1, 0)
  {
    assert b[0..] == b;
  }

  lemma ReadingMore(b: Bytes, most: nat, p: nat, weight: nat, total: nat)
    requires Reading(b, most, p, weight, total) && p < most && p < |b| && b[p] >= 128
    ensures Reading(b, most, p + 1, weight * 128, total + Part(b[p] % 128, weight))
  {
    assert b[p..][1..] == b[p + 1..];
    var rest := FromVarint(b[p + 1..], most - p - 1);
    if rest.Some? {
      Distribute(weight, b[p] % 128, rest.value.0);
    }
  }

  lemma ReadingLast(b: Bytes, most: nat, p: nat, weight: nat, total: nat)
    requires Reading(b, most, p, weight, total) && p < most && p < |b| && b[p] < 128
    ensures FromVarint(b, most) == Some((total + Part(b[p], weight), p + 1))
  {
    LastByte(b[p..], most - p);
    Commutes(weight, b[p]);
    hide FromVarint, Pow128;
  }

  lemma LastByte(b: Bytes, most: nat)
    requires b != [] && most > 0 && b[0] < 128
    ensures FromVarint(b, most) == Some((b[0], 1))
  {
  }

  lemma Commutes(a: nat, b: nat)
    ensures a * b == b * a
  {
  }

  lemma ReadingNone(b: Bytes, most: nat, p: nat, weight: nat, total: nat)
    requires Reading(b, most, p, weight, total) && (p == most || p == |b|)
    ensures FromVarint(b, most).None?
  {
  }

  /** The loop of GetVarint32PtrFallback and GetVarint64Ptr, in words of `word` values:
      five bytes for 32 bits, ten for 64; bits beyond the word are lost. */
  method GetVarint(b: Bytes, most: nat, word: nat) returns (r: Option<(nat, nat)>)
    requires word == WORD || word == LONG
    ensures r.None? <==> FromVarint(b, most).None?
    ensures r.Some? ==> r.value == (FromVarint(b, most).value.0 % word, FromVarint(b, most).value.1)
  {
    hide Reading, FromVarint, Pow128, Part, Wrap;
    ReadingStart(b, most);
    WrapNothing(word);
    WrapIs(word);
    var result: nat, weight: nat, p: nat := 0, 1, 0;
    ghost var total: nat := 0;
    while p < most && p < |b|
      invariant p <= |b| && p <= most
      invariant result == Wrap(total, word) && Reading(b, most, p, weight, total)
    {
      var bits := Part(b[p] % 128, weight);
      Wraps(total, bits, word);
      if b[p] >= 128 {
        ReadingMore(b, most, p, weight, total);
        result, total := Wrap(result + bits, word), total + bits;
        weight, p := weight * 128, p + 1;
      } else {
        LastBits(b[p]);
        ReadingLast(b, most, p, weight, total);
        return Some((Wrap(result + bits, word), p + 1));
      }
    }
    ReadingNone(b, most, p, weight, total);
    return None;
  }

  lemma WrapNothing(word: nat)
    requires word > 0
    ensures Wrap(0, word) == 0
  {
  }

  lemma WrapIs(word: nat)
    requires word > 0
    ensures forall x: nat {:trigger Wrap(x, word)} :: Wrap(x, word) == x % word
  {
  }

  lemma LastBits(b: Byte)
    ensures b < 128 ==> b % 128 == b
  {
  }

  lemma Wraps(a: nat, b: nat, word: nat)
    requires word == WORD || word == LONG
    ensures Wrap(Wrap(a, word) + b, word) == Wrap(a + b, word)
  {
    if word == WORD {
      ModWord(a + b, a / WORD + (a % WORD + b) / WORD, (a % WORD + b) % WORD);
    } else {
      ModLong(a + b, a / LONG + (a % LONG + b) / LONG, (a % LONG + b) % LONG);
    }
  }

  lemma ModWord(x: nat, k: nat, m: nat)
    requires x == k * WORD + m && m < WORD
    ensures x % WORD == m
  {
  }

  lemma ModLong(x: nat, k: nat, m: nat)
    requires x == k * LONG + m && m < LONG
    ensures x % LONG == m
  {
  }

  lemma Distribute(weight: nat, a: nat, b: nat)
    ensures weight * (a + 128 * b) == a * weight + weight * 128 * b
  {
  }

  // ------------------------------------------------------------------ length-prefixed strings

  function LengthPrefixed(s: Bytes): Bytes {
    Varint(|s|) + s
  }

  /** GetLengthPrefixedSlice: the string and what follows it. */
  function FromLengthPrefixed(b: Bytes): (r: Option<(Bytes, Bytes)>)
    ensures r.Some? ==> |r.value.0| + |r.value.1| < |b|
  {
    var n := FromVarint(b, 5);
    if n.None? then None else
    var length, rest := n.value.0 % WORD, b[n.value.1..];
    if length > |rest| then None else Some((rest[..length], rest[length..]))
  }

  lemma LengthPrefixedRoundTrip(s: Bytes, tail: Bytes)
    requires |s| < WORD
    ensures FromLengthPrefixed(LengthPrefixed(s) + tail) == Some((s, tail))
  {
    hide Varint, FromVarint, Pow128;
    Pow128Of5();
    VarintRoundTrip(|s|, 5, s + tail);
    var n, b := |Varint(|s|)|, Varint(|s|) + (s + tail);
    assert LengthPrefixed(s) + tail == b;
    assert b[n..] == s + tail;
    SmallLength(|s|);
    SplitBack(s, tail);
  }

  lemma SmallLength(n: nat)
    requires n < WORD
    ensures n % WORD == n
  {
  }

  lemma SplitBack(s: Bytes, tail: Bytes)
    ensures (s + tail)[..|s|] == s && (s + tail)[|s|..] == tail
  {
  }

  lemma Pow128Of5()
    ensures Pow128(5) > WORD
  {
    assert Pow128(3) == 128 * (128 * 128);
  }

  // ------------------------------------------------------------------ integers in front of a slice

  function GetVarint32(b: Bytes): (r: Option<(nat, Bytes)>)
    ensures r.Some? ==> |r.value.1| < |b|
  {
    var v := FromVarint(b, 5);
    if v.None? then None else Some((v.value.0 % WORD, b[v.value.1..]))
  }

  function GetVarint64(b: Bytes): (r: Option<(nat, Bytes)>)
    ensures r.Some? ==> |r.value.1| < |b|
  {
    var v := FromVarint(b, 10);
    if v.None? then None else Some((v.value.0 % LONG, b[v.value.1..]))
  }

  lemma Get32(v: nat, tail: Bytes)
    requires v < WORD
    ensures GetVarint32(Varint(v) + tail) == Some((v, tail))
  {
    hide Varint, FromVarint, Pow128;
    Pow128Of5();
    VarintRoundTrip(v, 5, tail);
  }

  lemma Get64(v: nat, tail: Bytes)
    requires v < LONG
    ensures GetVarint64(Varint(v) + tail) == Some((v, tail))
  {
    hide Varint, FromVarint, Pow128;
    Pow128Of10();
    VarintRoundTrip(v, 10, tail);
  }

  lemma Pow128Of10()
    ensures Pow128(10) > LONG
  {
    assert Pow128(3) == 128 * (128 * 128);
    assert Pow128(5) == 128 * (128 * Pow128(3));
    assert Pow128(7) == 128 * (128 * Pow128(5));
    assert Pow128(9) == 128 * (128 * Pow128(7));
  }
}
