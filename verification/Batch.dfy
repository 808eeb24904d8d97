/** Write batches (write_batch.cc): their stored form, and reading it back. */
module Batches {
  import opened Keys
  import opened Coding

  datatype BatchOp = PutOp(key: Bytes, value: Bytes) | DeleteOp(key: Bytes)

  const BATCH_HEADER := 12
  const MAX_COUNT := 0x8000_0000

  predicate OpFits(op: BatchOp) {
    |op.key| < WORD && (op.PutOp? ==> |op.value| < WORD)
  }

  predicate OpsFit(ops: seq<BatchOp>) {
    |ops| < MAX_COUNT && forall i :: 0 <= i < |ops| ==> OpFits(ops[i])
  }

  /** The type tag, the key, and the value of a put. */
  function EncodeOp(op: BatchOp): (r: Bytes)
    ensures r != []
  {
    match op
    case PutOp(k, v) => [1] + (LengthPrefixed(k) + LengthPrefixed(v))
    case DeleteOp(k) => [0] + LengthPrefixed(k)
  }

  function EncodeOps(ops: seq<BatchOp>): Bytes {
    if ops == [] then [] else EncodeOps(ops[..|ops| - 1]) + EncodeOp(ops[|ops| - 1])
  }

  /** A batch as it is stored: sequence number, count, operations. */
  function Rep(sequence: nat, ops: seq<BatchOp>): (r: Bytes)
    requires sequence < LONG && |ops| < WORD
    ensures |r| == BATCH_HEADER + |EncodeOps(ops)|
    ensures FromFixed(r[..8]) == sequence && FromFixed(r[8..12]) == |ops| && r[12..] == EncodeOps(ops)
  {
    var r := EncodeFixed64(sequence) + EncodeFixed32(|ops|) + EncodeOps(ops);
    assert r[..8] == EncodeFixed64(sequence) && r[8..12] == EncodeFixed32(|ops|) && r[12..] == EncodeOps(ops);
    r
  }

  // ------------------------------------------------------------------ parsing

  datatype Status = Fine | Corruption(message: string)

  /** One operation from the front of the input, and the rest. */
  function ParseOp(input: Bytes): (r: Option<(BatchOp, Bytes)>)
    requires input != []
    ensures r.Some? ==> |r.value.1| < |input|
  {
    if input[0] == 1 then
      var k := FromLengthPrefixed(input[1..]);
      if k.None? then None else
      var v := FromLengthPrefixed(k.value.1);
      if v.None? then None else Some((PutOp(k.value.0, v.value.0), v.value.1))
    else if input[0] == 0 then
      var k := FromLengthPrefixed(input[1..]);
      if k.None? then None else Some((DeleteOp(k.value.0), k.value.1))
    else None
  }

  /** The operations parsed before the input ends or fails, and whether it failed. */
  function ParseOps(input: Bytes): (seq<BatchOp>, bool)
    decreases |input|
  {
    if input == [] then ([], true) else
    var p := ParseOp(input);
    if p.None? then ([], false) else
    var rest := ParseOps(p.value.1);
    ([p.value.0] + rest.0, rest.1)
  }

  lemma ParseEncodedPut(k: Bytes, v: Bytes, tail: Bytes)
    requires |k| < WORD && |v| < WORD
    ensures ParseOp(EncodeOp(PutOp(k, v)) + tail) == Some((PutOp(k, v), tail))
  {
    hide LengthPrefixed, FromLengthPrefixed;
    var input := EncodeOp(PutOp(k, v)) + tail;
    var rest := LengthPrefixed(v) + tail;
    assert input[1..] == LengthPrefixed(k) + rest;
    LengthPrefixedRoundTrip(k, rest);
    LengthPrefixedRoundTrip(v, tail);
  }

  lemma ParseEncodedDelete(k: Bytes, tail: Bytes)
    requires |k| < WORD
    ensures ParseOp(EncodeOp(DeleteOp(k)) + tail) == Some((DeleteOp(k), tail))
  {
    hide LengthPrefixed, FromLengthPrefixed;
    var input := EncodeOp(DeleteOp(k)) + tail;
    assert input[1..] == LengthPrefixed(k) + tail;
    LengthPrefixedRoundTrip(k, tail);
  }

  lemma ParseEncodedOp(op: BatchOp, tail: Bytes)
    requires OpFits(op)
    ensures ParseOp(EncodeOp(op) + tail) == Some((op, tail))
  {
    hide ParseOp, EncodeOp;
    match op
    case PutOp(k, v) => ParseEncodedPut(k, v, tail);
    case DeleteOp(k) => ParseEncodedDelete(k, tail);
  }

  lemma ParseStep(op: BatchOp, tail: Bytes)
    requires OpFits(op)
    ensures ParseOps(EncodeOp(op) + tail) == ([op] + ParseOps(tail).0, ParseOps(tail).1)
  {
    ParseEncodedOp(op, tail);
    hide ParseOp, EncodeOp;
  }

  lemma {:induction false} ParseEncoded(ops: seq<BatchOp>, tail: Bytes)
    requires forall i :: 0 <= i < |ops| ==> OpFits(ops[i])
    ensures ParseOps(EncodeOps(ops) + tail) == (ops + ParseOps(tail).0, ParseOps(tail).1)
    decreases |ops|
  {
    hide ParseOps, EncodeOp;
    if ops == [] {
      assert EncodeOps(ops) + tail == tail;
      assert ops + ParseOps(tail).0 == ParseOps(tail).0;
    } else {
      var n := |ops| - 1;
      var last := EncodeOp(ops[n]) + tail;
      ParseEncoded(ops[..n], last);
      ParseStep(ops[n], tail);
      assert EncodeOps(ops) + tail == EncodeOps(ops[..n]) + last;
      assert ops + ParseOps(tail).0 == ops[..n] + ([ops[n]] + ParseOps(tail).0);
    }
  }

  /** Parsing undoes encoding. */
  lemma ParseRoundTrip(ops: seq<BatchOp>)
    requires forall i :: 0 <= i < |ops| ==> OpFits(ops[i])
    ensures ParseOps(EncodeOps(ops)) == (ops, true)
  {
    hide EncodeOps;
    ParseEncoded(ops, []);
    hide ParseOp;
    assert EncodeOps(ops) + [] == EncodeOps(ops);
    assert ops + [] == ops;
  }

  lemma {:induction false} EncodeAppend(a: seq<BatchOp>, b: seq<BatchOp>)
    ensures EncodeOps(a + b) == EncodeOps(a) + EncodeOps(b)
    decreases |b|
  {
    hide EncodeOp;
    if b == [] {
      assert a + b == a;
    } else {
      var n := |b| - 1;
      EncodeAppend(a, b[..n]);
      assert (a + b)[..|a + b| - 1] == a + b[..n];
      assert (a + b)[|a + b| - 1] == b[n];
      assert EncodeOps(a) + (EncodeOps(b[..n]) + EncodeOp(b[n])) == EncodeOps(a) + EncodeOps(b[..n]) + EncodeOp(b[n]);
    }
  }

  /** WriteBatch::Iterate: hands the operations on one by one. */
  method Iterate(rep: Bytes) returns (status: Status, ops: seq<BatchOp>)
    ensures |rep| < BATCH_HEADER ==> status != Fine && ops == []
    ensures |rep| >= BATCH_HEADER ==> ops == ParseOps(rep[12..]).0
    ensures |rep| >= BATCH_HEADER ==>
              (status == Fine <==> ParseOps(rep[12..]).1 && FromFixed(rep[8..12]) == |ops|)
  {
    ops := [];
    if |rep| < BATCH_HEADER {
      return Corruption("malformed WriteBatch (too small)"), ops;
    }
    var input, found := rep[12..], 0;
    ghost var all := ParseOps(input);
    assert [] + all.0 == all.0;
    while input != []
      invariant found == |ops|
      invariant all == (ops + ParseOps(input).0, ParseOps(input).1)
      decreases |input|
    {
      found := found + 1;
      var p := ParseOp(input);
      if p.None? {
        assert ops + [] == ops;
        return Corruption("bad WriteBatch operation"), ops;
      }
      assert ops + ([p.value.0] + ParseOps(p.value.1).0) == ops + [p.value.0] + ParseOps(p.value.1).0;
      ops, input := ops + [p.value.0], p.value.1;
    }
    assert ops + [] == ops;
    status := if found == FromFixed(rep[8..12]) then Fine else Corruption("WriteBatch has wrong count");
  }

  // ------------------------------------------------------------------ building a batch

  class WriteBatch {
    var rep: Bytes
    ghost var sequence: nat
    ghost var ops: seq<BatchOp>

    ghost predicate Ok()
      reads this
    {
      sequence < LONG && OpsFit(ops) && rep == Rep(sequence, ops)
    }

    constructor ()
      ensures Ok() && ops == [] && sequence == 0
    {
      rep := Zeros12();
      sequence, ops := 0, [];
      new;
      EmptyRep();
    }

    method SetSequence(s: nat)
      requires Ok() && s < LONG
      modifies this
      ensures Ok() && sequence == s && ops == old(ops)
    {
      hide EncodeOps, Fixed;
      assert rep[8..] == EncodeFixed32(|ops|) + EncodeOps(ops);
      rep := EncodeFixed64(s) + rep[8..];
      sequence := s;
    }

    /** Counts one more operation in the header and appends it. */
    method Add(op: BatchOp)
      requires Ok() && OpFits(op) && |ops| + 1 < MAX_COUNT
      modifies this
      ensures Ok() && ops == old(ops) + [op] && sequence == old(sequence)
    {
      hide EncodeOp, Fixed;
      var count := FromFixed(rep[8..12]);
      rep := rep[..8] + EncodeFixed32(count + 1) + rep[12..];
      rep := rep + EncodeOp(op);
      ops := ops + [op];
      assert ops[..|ops| - 1] == old(ops);
      assert rep == EncodeFixed64(sequence) + EncodeFixed32(|ops|) + EncodeOps(ops);
    }

    method Put(key: Bytes, value: Bytes)
      requires Ok() && |key| < WORD && |value| < WORD && |ops| + 1 < MAX_COUNT
      modifies this
      ensures Ok() && ops == old(ops) + [PutOp(key, value)] && sequence == old(sequence)
    {
      Add(PutOp(key, value));
    }

    method Delete(key: Bytes)
      requires Ok() && |key| < WORD && |ops| + 1 < MAX_COUNT
      modifies this
      ensures Ok() && ops == old(ops) + [DeleteOp(key)] && sequence == old(sequence)
    {
      Add(DeleteOp(key));
    }

    /** Appends the operations of another batch, whose sequence number is ignored. */
    method Append(source: WriteBatch)
      requires Ok() && source.Ok() && source != this && |ops| + |source.ops| < MAX_COUNT
      modifies this
      ensures Ok() && ops == old(ops) + source.ops && sequence == old(sequence)
    {
      hide EncodeOps, Fixed;
      var count, more := FromFixed(rep[8..12]), FromFixed(source.rep[8..12]);
      rep := rep[..8] + EncodeFixed32(count + more) + rep[12..];
      rep := rep + source.rep[12..];
      EncodeAppend(ops, source.ops);
      ops := ops + source.ops;
      assert rep == EncodeFixed64(sequence) + EncodeFixed32(|ops|) + EncodeOps(ops);
    }
  }

  function Zeros12(): (r: Bytes)
    ensures |r| == 12
  {
    [0, 0, 0, 0, 0, 0, 0, 0, 0, 0, 0, 0]
  }

  lemma EmptyRep()
    ensures Rep(0, []) == Zeros12()
  {
    assert Fixed(0, 4) == [0, 0, 0, 0];
    assert Fixed(0, 8) == [0, 0, 0, 0] + Fixed(0, 4);
  }
}
