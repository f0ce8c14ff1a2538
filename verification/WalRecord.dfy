/** The write-ahead log's record codec. */
module WalRecord {
  import opened Types
  import opened Codec

  datatype Record = Record(term: nat, index: nat, ops: seq<Op>)

  const TAG_PUT: Byte := 1
  const TAG_DELETE: Byte := 2
  const TAG_BATCH: Byte := 3

  const MAX_PAYLOAD: nat := 0xFFFF_FFFF

  // ---- encoding ----

  function OpTag(op: Op): Byte { if op.Put? then TAG_PUT else TAG_DELETE }

  function OpValue(op: Op): Bytes { if op.Put? then op.value else [] }

  function OpBodyLen(op: Op): nat { 4 + |op.key| + 4 + |OpValue(op)| }

  function OpsLen(ops: seq<Op>): nat {
    if ops == [] then 0 else 1 + OpBodyLen(ops[0]) + OpsLen(ops[1..])
  }

  /** The encoded size of a record carrying `ops`. */
  function PayloadLen(ops: seq<Op>): nat {
    if |ops| == 1 then 1 + 8 + 8 + OpBodyLen(ops[0]) else 1 + 8 + 8 + 4 + OpsLen(ops)
  }

  /** What `check_ops` accepts: at least one op, and a payload the `u32` length field can frame. */
  predicate CheckOps(ops: seq<Op>) {
    ops != [] && PayloadLen(ops) <= MAX_PAYLOAD
  }

  predicate Framable(r: Record) {
    CheckOps(r.ops) && r.term < U64_LIMIT && r.index < U64_LIMIT
  }

  lemma {:induction false} OpsLenBounds(ops: seq<Op>)
    ensures 9 * |ops| <= OpsLen(ops)
    ensures forall op :: op in ops ==> OpBodyLen(op) <= OpsLen(ops)
  {
    if ops != [] {
      OpsLenBounds(ops[1..]);
    }
  }

  function EncodeOpBody(op: Op): (b: Bytes)
    requires OpBodyLen(op) <= MAX_PAYLOAD
    ensures |b| == OpBodyLen(op)
  {
    Chunk(op.key) + Chunk(OpValue(op))
  }

  function EncodeOps(ops: seq<Op>): (b: Bytes)
    requires OpsLen(ops) <= MAX_PAYLOAD
    ensures |b| == OpsLen(ops)
  {
    if ops == [] then [] else [OpTag(ops[0])] + EncodeOpBody(ops[0]) + EncodeOps(ops[1..])
  }

  function Head(tag: Byte, r: Record): (b: Bytes)
    requires r.term < U64_LIMIT && r.index < U64_LIMIT
    ensures |b| == 17
  {
    [tag] + (U64(r.term) + U64(r.index))
  }

  lemma HeadFields(tag: Byte, r: Record, body: Bytes)
    requires r.term < U64_LIMIT && r.index < U64_LIMIT
    ensures var b := Head(tag, r) + body;
      b[0] == tag && FromLE(b[1..9]) == r.term && FromLE(b[9..17]) == r.index && b[17..] == body
  {
    var b, t, i := Head(tag, r) + body, U64(r.term), U64(r.index);
    Halves(Head(tag, r), body);
    Halves(t, i);
    assert b[1..9] == (t + i)[..8];
    assert b[9..17] == (t + i)[8..];
  }

  function EncodePayload(r: Record): (b: Bytes)
    requires Framable(r)
    ensures |b| == PayloadLen(r.ops)
  {
    if |r.ops| == 1 then
      Head(OpTag(r.ops[0]), r) + EncodeOpBody(r.ops[0])
    else
      OpsLenBounds(r.ops);
      Head(TAG_BATCH, r) + (U32(|r.ops|) + EncodeOps(r.ops))
  }

  /** Where everything is in a payload: the tag (1 a put, 2 a delete, 3 a batch), the term, the index, and then
      the one op's key and value, or the number of ops and each with its own tag. */
  lemma PayloadBytes(r: Record)
    requires Framable(r)
    ensures var b := EncodePayload(r);
            && b[0] == (if |r.ops| != 1 then 3 else if r.ops[0].Put? then 1 else 2)
            && FromLE(b[1..9]) == r.term && FromLE(b[9..17]) == r.index
            && (|r.ops| == 1 ==> BodyAt(b, 17, r.ops[0]) && |b| == 25 + |r.ops[0].key| + |OpValue(r.ops[0])|)
            && (|r.ops| != 1 ==>
                  && FromLE(b[17..21]) == |r.ops| && |b| == 21 + OpsLen(r.ops)
                  && forall i :: 0 <= i < |r.ops| ==>
                       var at := 21 + OpsLen(r.ops[..i]);
                       at < |b| && b[at] == (if r.ops[i].Put? then 1 else 2) && BodyAt(b, at + 1, r.ops[i]))
  {
    hide FromLE, EncodePayload, BodyAt, OpsLen;
    if |r.ops| == 1 {
      OnePayload(r);
    } else {
      BatchPayload(r);
    }
  }

  lemma OnePayload(r: Record)
    requires Framable(r) && |r.ops| == 1
    ensures var b := EncodePayload(r);
            && b[0] == (if r.ops[0].Put? then 1 else 2) && FromLE(b[1..9]) == r.term && FromLE(b[9..17]) == r.index
            && BodyAt(b, 17, r.ops[0]) && |b| == 25 + |r.ops[0].key| + |OpValue(r.ops[0])|
  {
    hide U64, U32, FromLE, EncodeOpBody, Chunk, BodyAt, Head;
    var head, body := Head(OpTag(r.ops[0]), r), EncodeOpBody(r.ops[0]);
    HeadFields(OpTag(r.ops[0]), r, body);
    BodyBytes(head, r.ops[0], []);
    assert body + [] == body;
  }

  lemma BatchPayload(r: Record)
    requires Framable(r) && |r.ops| != 1
    ensures var b := EncodePayload(r);
            && b[0] == 3 && FromLE(b[1..9]) == r.term && FromLE(b[9..17]) == r.index
            && FromLE(b[17..21]) == |r.ops| && |b| == 21 + OpsLen(r.ops)
            && forall i :: 0 <= i < |r.ops| ==>
                 var at := 21 + OpsLen(r.ops[..i]);
                 at < |b| && b[at] == (if r.ops[i].Put? then 1 else 2) && BodyAt(b, at + 1, r.ops[i])
  {
    hide U64, U32, FromLE, EncodeOps, Chunk, BodyAt, Head, OpsLen, OpBodyLen;
    OpsLenBounds(r.ops);
    var b, head, n, ops := EncodePayload(r), Head(TAG_BATCH, r), U32(|r.ops|), EncodeOps(r.ops);
    HeadFields(TAG_BATCH, r, n + ops);
    Halves(n, ops);
    assert b[17..21] == b[17..][..4] == n;
    Reassociate(head, n, ops);
    forall i | 0 <= i < |r.ops|
      ensures var at := 21 + OpsLen(r.ops[..i]);
              at < |b| && b[at] == (if r.ops[i].Put? then 1 else 2) && BodyAt(b, at + 1, r.ops[i])
    {
      OpBytes(head + n, r.ops, i);
    }
  }

  /** `op`'s key and value are in `b` from `at` on, each after its length; a delete's value is empty. */
  ghost predicate BodyAt(b: Bytes, at: nat, op: Op) {
    var k, v := |op.key|, if op.Put? then op.value else [];
    && at + 8 + k + |v| <= |b|
    && FromLE(b[at..at + 4]) == k && b[at + 4..at + 4 + k] == op.key
    && FromLE(b[at + 4 + k..at + 8 + k]) == |v| && b[at + 8 + k..at + 8 + k + |v|] == v
  }

  lemma BodyBytes(before: Bytes, op: Op, rest: Bytes)
    requires OpBodyLen(op) <= MAX_PAYLOAD
    ensures BodyAt(before + (EncodeOpBody(op) + rest), |before|, op)
  {
    hide FromLE;
    var at, k, v := |before|, |op.key|, OpValue(op);
    var b := before + (EncodeOpBody(op) + rest);
    assert b[at..at + 4] == U32(k);
    assert b[at + 4..at + 4 + k] == op.key;
    assert b[at + 4 + k..at + 8 + k] == U32(|v|);
    assert b[at + 8 + k..at + 8 + k + |v|] == v;
  }

  lemma {:induction false} OpBytes(before: Bytes, ops: seq<Op>, i: nat)
    requires OpsLen(ops) <= MAX_PAYLOAD && i < |ops|
    ensures var b, at := before + EncodeOps(ops), |before| + OpsLen(ops[..i]);
            at < |b| && b[at] == (if ops[i].Put? then 1 else 2) && BodyAt(b, at + 1, ops[i])
    decreases i
  {
    hide BodyAt, FromLE, EncodeOpBody, OpBodyLen;
    var first, body, rest := [OpTag(ops[0])], EncodeOpBody(ops[0]), EncodeOps(ops[1..]);
    ThreeAfter(before, first, body, rest);
    if i == 0 {
      BodyBytes(before + first, ops[0], rest);
    } else {
      OpBytes(before + (first + body), ops[1..], i - 1);
      assert ops[..i][0] == ops[0] && ops[..i][1..] == ops[1..][..i - 1];
    }
  }

  lemma ThreeAfter(a: Bytes, b: Bytes, c: Bytes, d: Bytes)
    ensures a + (b + c + d) == (a + b) + (c + d) == (a + (b + c)) + d
    ensures b != [] ==> (a + (b + c + d))[|a|] == b[0]
  {
  }

  // ---- decoding: each function takes what is left of the payload and returns what it leaves ----

  function DecodeOp(tag: Byte, b: Bytes): Option<(Op, Bytes)> {
    var key := ReadChunk(b);
    if key.None? then None
    else
      var value := ReadChunk(key.value.1);
      if value.None? then None
      else if tag == TAG_PUT then Some((Put(key.value.0, value.value.0), value.value.1))
      else if tag == TAG_DELETE then Some((Delete(key.value.0), value.value.1))
      else None
  }

  function DecodeOps(n: nat, b: Bytes): Option<(seq<Op>, Bytes)> {
    if n == 0 then Some(([], b))
    else if b == [] then None
    else
      var first := DecodeOp(b[0], b[1..]);
      if first.None? then None
      else
        var rest := DecodeOps(n - 1, first.value.1);
        if rest.None? then None else Some(([first.value.0] + rest.value.0, rest.value.1))
  }

  function DecodeBody(tag: Byte, b: Bytes): Option<(seq<Op>, Bytes)> {
    if tag == TAG_PUT || tag == TAG_DELETE then
      var op := DecodeOp(tag, b);
      if op.None? then None else Some(([op.value.0], op.value.1))
    else if tag == TAG_BATCH then
      if |b| < 4 then None
      else
        var n := FromLE(b[..4]);
        if n == 0 || n > |b[4..]| / 9 then None else DecodeOps(n, b[4..])
    else None
  }

  function DecodePayload(b: Bytes): Option<Record> {
    if |b| < 17 then None
    else
      var body := DecodeBody(b[0], b[17..]);
      if body.None? || body.value.1 != [] then None
      else Some(Record(FromLE(b[1..9]), FromLE(b[9..17]), body.value.0))
  }

  // ---- round trip ----

  lemma DecodeEncodedOp(op: Op, rest: Bytes)
    requires OpBodyLen(op) <= MAX_PAYLOAD
    ensures DecodeOp(OpTag(op), EncodeOpBody(op) + rest) == Some((op, rest))
  {
    var value := Chunk(OpValue(op)) + rest;
    assert EncodeOpBody(op) + rest == Chunk(op.key) + value;
    ReadChunkOf(op.key, value);
    ReadChunkOf(OpValue(op), rest);
  }

  lemma FirstOp(ops: seq<Op>, rest: Bytes)
    requires ops != [] && OpsLen(ops) <= MAX_PAYLOAD
    ensures var b := EncodeOps(ops) + rest;
      b[0] == OpTag(ops[0]) && b[1..] == EncodeOpBody(ops[0]) + (EncodeOps(ops[1..]) + rest)
  {
    var tag, body, more := [OpTag(ops[0])], EncodeOpBody(ops[0]), EncodeOps(ops[1..]);
    Reassociate(tag + body, more, rest);
    Reassociate(tag, body, more + rest);
    Halves(tag, body + (more + rest));
  }

  lemma DecodeOpsStep(b: Bytes, op: Op, tail: Bytes, more: seq<Op>, rest: Bytes)
    requires b != [] && DecodeOp(b[0], b[1..]) == Some((op, tail))
    requires DecodeOps(|more|, tail) == Some((more, rest))
    ensures DecodeOps(1 + |more|, b) == Some(([op] + more, rest))
  {
  }

  lemma {:induction false} DecodeEncodedOps(ops: seq<Op>, rest: Bytes)
    requires OpsLen(ops) <= MAX_PAYLOAD
    ensures DecodeOps(|ops|, EncodeOps(ops) + rest) == Some((ops, rest))
  {
    if ops == [] {
      assert EncodeOps(ops) + rest == rest;
    } else {
      var tail := EncodeOps(ops[1..]) + rest;
      FirstOp(ops, rest);
      DecodeEncodedOp(ops[0], tail);
      DecodeEncodedOps(ops[1..], rest);
      DecodeOpsStep(EncodeOps(ops) + rest, ops[0], tail, ops[1..], rest);
      assert [ops[0]] + ops[1..] == ops;
    }
  }

  lemma DecodeEncodedBatch(ops: seq<Op>)
    requires ops != [] && 4 + OpsLen(ops) <= MAX_PAYLOAD && |ops| < U32_LIMIT
    ensures DecodeBody(TAG_BATCH, U32(|ops|) + EncodeOps(ops)) == Some((ops, []))
  {
    OpsLenBounds(ops);
    Halves(U32(|ops|), EncodeOps(ops));
    DecodeEncodedOps(ops, []);
    assert EncodeOps(ops) + [] == EncodeOps(ops);
  }

  /** Encoding then decoding is the identity on every record the log accepts. */
  lemma DecodeEncoded(r: Record)
    requires Framable(r)
    ensures DecodePayload(EncodePayload(r)) == Some(r)
  {
    if |r.ops| == 1 {
      var body := EncodeOpBody(r.ops[0]);
      HeadFields(OpTag(r.ops[0]), r, body);
      DecodeEncodedOp(r.ops[0], []);
      assert body + [] == body && [r.ops[0]] == r.ops;
    } else {
      OpsLenBounds(r.ops);
      HeadFields(TAG_BATCH, r, U32(|r.ops|) + EncodeOps(r.ops));
      DecodeEncodedBatch(r.ops);
    }
  }

  /** A payload is never shorter than the minimum a scan insists on. */
  /** A record is accepted exactly when it has an op and its payload's length fits four bytes; it is then no
      smaller than the scan's minimum. */
  lemma PayloadLenBound(ops: seq<Op>)
    ensures CheckOps(ops) <==> ops != [] && PayloadLen(ops) < 0x1_0000_0000
    ensures ops != [] ==> PayloadLen(ops) >= 25
  {
    OpsLenBounds(ops);
  }

  // ---- the other way round ----

  /** A delete's value-length field is zero: the op at `b`, after its tag. */
  predicate BareOp(tag: Byte, b: Bytes) {
    tag == TAG_DELETE ==>
      var key := ReadChunk(b);
      key.Some? && |key.value.1| >= 4 && FromLE(key.value.1[..4]) == 0
  }

  /** So are those of all `n` ops at `b`. */
  predicate BareOps(n: nat, b: Bytes) {
    n > 0 && b != [] ==>
      var first := DecodeOp(b[0], b[1..]);
      BareOp(b[0], b[1..]) && (first.Some? ==> BareOps(n - 1, first.value.1))
  }

  /** A payload the encoder could have written: no batch of one, and no value bytes on a delete. */
  predicate Canonical(b: Bytes) {
    |b| >= 17 &&
    if b[0] == TAG_BATCH then |b| >= 21 && FromLE(b[17..21]) != 1 && BareOps(FromLE(b[17..21]), b[21..])
    else BareOp(b[0], b[17..])
  }

  /** A decoded op is no longer than its bytes, and as long exactly when it is bare; then it is its bytes. */
  lemma DecodedOp(tag: Byte, b: Bytes)
    requires DecodeOp(tag, b).Some? && |b| <= MAX_PAYLOAD
    ensures var (op, rest) := DecodeOp(tag, b).value;
      && OpTag(op) == tag && OpBodyLen(op) + |rest| <= |b|
      && (BareOp(tag, b) <==> OpBodyLen(op) + |rest| == |b|)
      && (BareOp(tag, b) ==> EncodeOpBody(op) + rest == b)
  {
    hide FromLE, Chunk;
    var key := ReadChunk(b);
    var value := ReadChunk(key.value.1);
    ChunkRead(b);
    ChunkRead(key.value.1);
    Reassociate(Chunk(key.value.0), Chunk(value.value.0), value.value.1);
    if tag == TAG_DELETE && BareOp(tag, b) {
      assert value.value.0 == [];
    }
  }

  lemma OpsFirst(ops: seq<Op>)
    requires ops != []
    ensures OpsLen(ops) == 1 + OpBodyLen(ops[0]) + OpsLen(ops[1..])
  {
  }

  lemma {:induction false} DecodedOps(n: nat, b: Bytes)
    requires DecodeOps(n, b).Some? && |b| <= MAX_PAYLOAD
    ensures var (ops, rest) := DecodeOps(n, b).value;
      && |ops| == n && OpsLen(ops) + |rest| <= |b|
      && (BareOps(n, b) <==> OpsLen(ops) + |rest| == |b|)
      && (BareOps(n, b) ==> EncodeOps(ops) + rest == b)
    decreases n
  {
    hide DecodeOp, BareOp, EncodeOpBody, OpBodyLen, OpTag;
    var (ops, rest) := DecodeOps(n, b).value;
    if n > 0 {
      var (op, tail) := DecodeOp(b[0], b[1..]).value;
      DecodedOp(b[0], b[1..]);
      DecodedOps(n - 1, tail);
      assert ops[0] == op && ops[1..] == DecodeOps(n - 1, tail).value.0;
      OpsFirst(ops);
      if BareOps(n, b) {
        FirstOp(ops, rest);
        assert b == [b[0]] + b[1..];
      }
    }
  }

  /** The head's fields read back as the record's. */
  lemma HeadRead(b: Bytes, r: Record)
    requires |b| >= 17 && r.term == FromLE(b[1..9]) && r.index == FromLE(b[9..17])
    ensures r.term < U64_LIMIT && r.index < U64_LIMIT && b == Head(b[0], r) + b[17..]
  {
    hide FromLE, LE;
    LEOfFromLE(b[1..9]);
    LEOfFromLE(b[9..17]);
    Limits();
    assert b == [b[0]] + (b[1..9] + b[9..17]) + b[17..];
  }

  /** A batch's body after its count. */
  lemma DecodedBatch(b: Bytes, ops: seq<Op>)
    requires DecodeBody(TAG_BATCH, b) == Some((ops, [])) && |b| <= MAX_PAYLOAD
    ensures |ops| == FromLE(b[..4]) < U32_LIMIT && ops != [] && 4 + OpsLen(ops) <= |b|
    ensures BareOps(FromLE(b[..4]), b[4..]) <==> 4 + OpsLen(ops) == |b|
    ensures BareOps(FromLE(b[..4]), b[4..]) ==> b == U32(|ops|) + EncodeOps(ops)
  {
    hide FromLE, LE, BareOps, DecodeOps;
    DecodedOps(FromLE(b[..4]), b[4..]);
    LEOfFromLE(b[..4]);
    Limits();
    assert b == b[..4] + b[4..];
    assert EncodeOps(ops) + [] == EncodeOps(ops);
  }

  lemma DecodedSingle(tag: Byte, b: Bytes, ops: seq<Op>)
    requires DecodeBody(tag, b) == Some((ops, [])) && tag != TAG_BATCH && |b| <= MAX_PAYLOAD
    ensures |ops| == 1 && OpTag(ops[0]) == tag && OpBodyLen(ops[0]) <= |b|
    ensures BareOp(tag, b) <==> OpBodyLen(ops[0]) == |b|
    ensures BareOp(tag, b) ==> b == EncodeOpBody(ops[0])
  {
    hide DecodeOp, BareOp, EncodeOpBody, OpBodyLen, OpTag;
    DecodedOp(tag, b);
    assert BareOp(tag, b) ==> EncodeOpBody(ops[0]) + [] == EncodeOpBody(ops[0]);
  }

  /**
   * Decoding then encoding: every payload that decodes is a record the log accepts, and encodes back to
   * its own bytes exactly when it is no batch of one and no delete in it carries value bytes.
   */
  lemma ReencodesExactly(b: Bytes, r: Record)
    requires DecodePayload(b) == Some(r) && |b| <= MAX_PAYLOAD
    ensures Framable(r) && (EncodePayload(r) == b <==> Canonical(b))
  {
    hide FromLE, BareOps, BareOp, DecodeBody, EncodeOpBody, EncodeOps, OpsLen, OpBodyLen, Head, U32, OpTag;
    var body := b[17..];
    HeadRead(b, r);
    if b[0] == TAG_BATCH {
      DecodedBatch(body, r.ops);
      assert body[..4] == b[17..21] && body[4..] == b[21..];
      if |r.ops| == 1 {
        OneOp(r.ops);
      }
    } else {
      DecodedSingle(b[0], body, r.ops);
    }
  }

  lemma OneOp(ops: seq<Op>)
    requires |ops| == 1
    ensures OpsLen(ops) == 1 + OpBodyLen(ops[0])
  {
    assert OpsLen(ops[1..]) == 0;
  }

  /** One way to fail: a delete's value bytes decode to nothing. */
  lemma DeleteDropsItsValue(term: nat, index: nat, key: Bytes, value: Bytes)
    requires term < U64_LIMIT && index < U64_LIMIT && value != [] && 25 + |key| + |value| <= MAX_PAYLOAD
    ensures var r := Record(term, index, [Delete(key)]);
      var b := Head(TAG_DELETE, r) + (Chunk(key) + Chunk(value));
      Framable(r) && DecodePayload(b) == Some(r) && EncodePayload(r) != b && !Canonical(b)
  {
    hide Chunk, FromLE, Head, BareOp;
    var r := Record(term, index, [Delete(key)]);
    var body := Chunk(key) + Chunk(value);
    var b := Head(TAG_DELETE, r) + body;
    HeadFields(TAG_DELETE, r, body);
    ReadChunkOf(key, Chunk(value));
    ReadChunkOf(value, []);
    assert Chunk(value) + [] == Chunk(value);
    assert |EncodePayload(r)| < |b|;
    ReencodesExactly(b, r);
  }

  /** The other: a batch of one is re-encoded as the op alone. */
  lemma BatchOfOneIsUnwrapped(term: nat, index: nat, op: Op)
    requires term < U64_LIMIT && index < U64_LIMIT && 22 + OpBodyLen(op) <= MAX_PAYLOAD
    ensures OpsLen([op]) == 1 + OpBodyLen(op)
    ensures var r := Record(term, index, [op]);
      var b := Head(TAG_BATCH, r) + (U32(1) + EncodeOps(r.ops));
      Framable(r) && DecodePayload(b) == Some(r) && EncodePayload(r) != b && !Canonical(b)
  {
    hide FromLE, BareOps, EncodeOps, OpsLen, OpBodyLen, DecodeBody, Head, U32;
    OneOp([op]);
    var r := Record(term, index, [op]);
    var b := Head(TAG_BATCH, r) + (U32(1) + EncodeOps(r.ops));
    HeadFields(TAG_BATCH, r, U32(1) + EncodeOps(r.ops));
    DecodeEncodedBatch(r.ops);
    assert |EncodePayload(r)| < |b|;
    ReencodesExactly(b, r);
  }
}
