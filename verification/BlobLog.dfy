/** The blob log: records, the scan that finds them, and what an index of them holds. */
module BlobLog {
  import opened Types
  import opened Codec
  import opened Crc

  datatype Blob = Blob(id: nat, payload: Bytes)

  const FENCE_ID: nat := U64_LIMIT - 1

  predicate Storable(b: Blob) { b.id < U64_LIMIT && |b.payload| < U64_LIMIT }

  predicate AllStorable(blobs: seq<Blob>) {
    forall i :: 0 <= i < |blobs| ==> Storable(blobs[i])
  }

  // ---- records ----

  /** What a record's checksum covers: the id, the length and the payload. */
  function Covered(b: Blob): (r: Bytes)
    requires Storable(b)
    ensures |r| == 16 + |b.payload|
  {
    U64BE(b.id) + U64BE(|b.payload|) + b.payload
  }

  function Record(b: Blob): (r: Bytes)
    requires Storable(b)
    ensures |r| == 20 + |b.payload|
  {
    Covered(b) + U32BE(Crc32(Covered(b)))
  }

  function Log(blobs: seq<Blob>): Bytes
    requires AllStorable(blobs)
  {
    if blobs == [] then [] else Log(blobs[..|blobs| - 1]) + Record(blobs[|blobs| - 1])
  }

  /** A record is its id, its payload's length, the payload, and the checksum of all three, every number most
      significant byte first. */
  lemma RecordBytes(b: Blob)
    requires Storable(b)
    ensures var r, n := Record(b), |b.payload|;
            && |r| == 20 + n && FromBE(r[..8]) == b.id && FromBE(r[8..16]) == n && r[16..16 + n] == b.payload
            && FromBE(r[16 + n..]) == Crc32(r[..16 + n])
  {
    hide FromBE, Crc32;
    var r, n := Record(b), |b.payload|;
    assert r[..16 + n] == Covered(b) && r[16 + n..] == U32BE(Crc32(Covered(b)));
    assert r[..8] == U64BE(b.id) && r[8..16] == U64BE(n) && r[16..16 + n] == b.payload;
  }

  // ---- reading ----

  /** The first record and what follows it; `None` if it is torn or fails its checksum. */
  function ReadRecord(b: Bytes): (r: Option<(Blob, Bytes)>)
    ensures r.Some? ==> |b| == 20 + |r.value.0.payload| + |r.value.1|
  {
    if |b| < 20 then None
    else
      var len := FromBE(b[8..16]);
      if 20 + len > |b| then None
      else if Crc32(b[..16 + len]) != FromBE(b[16 + len..20 + len]) then None
      else Some((Blob(FromBE(b[..8]), b[16..16 + len]), b[20 + len..]))
  }

  /** Every intact record before the first torn or corrupt one. */
  function Scan(b: Bytes): seq<Blob>
    decreases |b|
  {
    var r := ReadRecord(b);
    if r.None? then [] else [r.value.0] + Scan(r.value.1)
  }

  /** Where the intact log ends. */
  function ScanEnd(b: Bytes): (n: nat)
    ensures n <= |b|
    decreases |b|
  {
    var r := ReadRecord(b);
    if r.None? then 0 else 20 + |r.value.0.payload| + ScanEnd(r.value.1)
  }

  // ---- the index ----

  datatype Slot = Slot(offset: nat, len: nat)

  function LogLen(blobs: seq<Blob>): nat {
    if blobs == [] then 0 else LogLen(blobs[..|blobs| - 1]) + 20 + |blobs[|blobs| - 1].payload|
  }

  /** Where each blob lies; fences are not blobs. */
  function IndexOf(blobs: seq<Blob>): map<nat, Slot> {
    if blobs == [] then map[]
    else
      var init, b := blobs[..|blobs| - 1], blobs[|blobs| - 1];
      if b.id == FENCE_ID then IndexOf(init) else IndexOf(init)[b.id := Slot(LogLen(init), |b.payload|)]
  }

  /** The first id never used: past every blob, and no lower than any fence's mark. */
  function NextId(blobs: seq<Blob>): nat {
    if blobs == [] then 0
    else
      var before, b := NextId(blobs[..|blobs| - 1]), blobs[|blobs| - 1];
      if b.id != FENCE_ID then Max(before, b.id + 1)
      else if |b.payload| == 8 then Max(before, FromBE(b.payload))
      else before
  }

  // ---- a scan of the log's own bytes ----

  lemma RecordFields(b: Blob, rest: Bytes)
    requires Storable(b)
    ensures var r, n := Record(b) + rest, |b.payload|;
      && FromBE(r[..8]) == b.id && FromBE(r[8..16]) == n && r[16..16 + n] == b.payload
      && r[..16 + n] == Covered(b) && r[16 + n..20 + n] == U32BE(Crc32(Covered(b))) && r[20 + n..] == rest
  {
    hide U64BE, U32BE, FromBE, Crc32;
    var r, n := Record(b) + rest, |b.payload|;
    assert r[..8] == U64BE(b.id) && r[8..16] == U64BE(n);
  }

  lemma ReadRecordOf(b: Blob, rest: Bytes)
    requires Storable(b)
    ensures ReadRecord(Record(b) + rest) == Some((b, rest))
  {
    hide Record, Covered, FromBE, Crc32, U32BE;
    RecordFields(b, rest);
  }

  /** A proper prefix of a record is torn: its length field alone gives it away. */
  lemma ReadRecordCut(b: Blob, n: nat)
    requires Storable(b) && n < |Record(b)|
    ensures ReadRecord(Record(b)[..n]) == None
  {
    hide Record, Covered, FromBE, Crc32, U32BE;
    RecordFields(b, []);
    var r := Record(b) + [];
    assert r == Record(b);
    if n >= 20 {
      assert r[..n][8..16] == r[8..16];
    }
  }

  lemma {:induction false} LogLenIs(blobs: seq<Blob>)
    requires AllStorable(blobs)
    ensures |Log(blobs)| == LogLen(blobs)
  {
    hide Record;
    if blobs != [] {
      LogLenIs(blobs[..|blobs| - 1]);
    }
  }

  lemma {:induction false} LogConcat(a: seq<Blob>, b: seq<Blob>)
    requires AllStorable(a) && AllStorable(b)
    ensures AllStorable(a + b) && Log(a + b) == Log(a) + Log(b)
  {
    hide Record, Storable;
    if b == [] {
      assert a + b == a;
      assert Log(a) + [] == Log(a);
    } else {
      var n := |b| - 1;
      LogConcat(a, b[..n]);
      assert (a + b)[..|a + b| - 1] == a + b[..n] && (a + b)[|a + b| - 1] == b[n];
      Reassociate(Log(a), Log(b[..n]), Record(b[n]));
    }
  }

  lemma LogOne(b: Blob)
    requires Storable(b)
    ensures Log([b]) == Record(b)
  {
    hide Record;
    assert Log([b]) == Log([]) + Record(b);
  }

  lemma LogFirst(blobs: seq<Blob>)
    requires AllStorable(blobs) && blobs != []
    ensures AllStorable(blobs[1..]) && Log(blobs) == Record(blobs[0]) + Log(blobs[1..])
  {
    hide Record, Log;
    assert blobs == [blobs[0]] + blobs[1..];
    LogConcat([blobs[0]], blobs[1..]);
    LogOne(blobs[0]);
  }

  /** A scan finds every whole record, and stops at a torn tail. */
  lemma {:induction false} ScanWritten(blobs: seq<Blob>, tail: Bytes)
    requires AllStorable(blobs) && ReadRecord(tail) == None
    ensures Scan(Log(blobs) + tail) == blobs && ScanEnd(Log(blobs) + tail) == |Log(blobs)|
    decreases |blobs|
  {
    hide ReadRecord, Record, Storable;
    if blobs == [] {
      assert Log(blobs) + tail == tail;
    } else {
      LogFirst(blobs);
      var more := Log(blobs[1..]);
      Reassociate(Record(blobs[0]), more, tail);
      ReadRecordOf(blobs[0], more + tail);
      ScanWritten(blobs[1..], tail);
      assert [blobs[0]] + blobs[1..] == blobs;
    }
  }

  lemma NoRecord()
    ensures ReadRecord([]) == None
  {
  }

  /** After a log and any prefix of one more record, a scan finds the log, and the record only if whole. */
  lemma ScanAfterCut(blobs: seq<Blob>, b: Blob, n: nat)
    requires AllStorable(blobs) && Storable(b) && n <= |Record(b)|
    ensures var whole := if n == |Record(b)| then blobs + [b] else blobs;
      && AllStorable(whole)
      && Scan(Log(blobs) + Record(b)[..n]) == whole
      && ScanEnd(Log(blobs) + Record(b)[..n]) == |Log(whole)|
      && Log(whole) <= Log(blobs) + Record(b)[..n]
  {
    hide ReadRecord, Record, Log, Storable, Scan, ScanEnd;
    if n == |Record(b)| {
      LogOne(b);
      LogConcat(blobs, [b]);
      assert Record(b)[..n] == Record(b);
      NoRecord();
      ScanWritten(blobs + [b], []);
      assert Log(blobs + [b]) + [] == Log(blobs + [b]);
    } else {
      ReadRecordCut(b, n);
      ScanWritten(blobs, Record(b)[..n]);
    }
  }

  // ---- facts about the index ----

  /** Every id in the index is below the next id. */
  lemma {:induction false} IdsBelowNext(blobs: seq<Blob>)
    ensures forall id :: id in IndexOf(blobs) ==> id < NextId(blobs)
  {
    if blobs != [] {
      IdsBelowNext(blobs[..|blobs| - 1]);
    }
  }

  /** An indexed id's slot is where its record lies. */
  lemma {:induction false} SlotHolds(blobs: seq<Blob>, id: nat) returns (before: seq<Blob>, b: Blob, after: seq<Blob>)
    requires id in IndexOf(blobs)
    ensures blobs == before + [b] + after && b.id == id && id != FENCE_ID
    ensures IndexOf(blobs)[id] == Slot(LogLen(before), |b.payload|)
  {
    var n := |blobs| - 1;
    if blobs[n].id == id && id != FENCE_ID {
      before, b, after := blobs[..n], blobs[n], [];
    } else {
      before, b, after := SlotHolds(blobs[..n], id);
      after := after + [blobs[n]];
      assert blobs == blobs[..n] + [blobs[n]];
    }
  }

  // ---- any bytes at all ----

  lemma ReadIsStorable(b: Bytes)
    requires ReadRecord(b).Some?
    ensures Storable(ReadRecord(b).value.0)
  {
    hide FromBE, Crc32, Limit;
    FromBEBound(b[..8]);
    FromBEBound(b[8..16]);
    Limits();
  }

  lemma {:induction false} ScanIsStorable(b: Bytes)
    ensures AllStorable(Scan(b))
    decreases |b|
  {
    hide ReadRecord, Storable;
    if ReadRecord(b).Some? {
      ReadIsStorable(b);
      ScanIsStorable(ReadRecord(b).value.1);
    }
  }

  lemma ScanStep(b: Bytes)
    ensures ReadRecord(b).None? ==> Scan(b) == [] && ScanEnd(b) == 0
    ensures ReadRecord(b).Some? ==>
      var r := ReadRecord(b).value;
      Scan(b) == [r.0] + Scan(r.1) && ScanEnd(b) == 20 + |r.0.payload| + ScanEnd(r.1)
  {
    hide ReadRecord;
  }

  lemma EmptyLog()
    ensures Log([]) == [] && IndexOf([]) == map[] && LogLen([]) == 0 && NextId([]) == 0
  {
  }

  lemma IndexStep(done: seq<Blob>, b: Blob)
    ensures LogLen(done + [b]) == LogLen(done) + 20 + |b.payload|
    ensures IndexOf(done + [b]) ==
      if b.id == FENCE_ID then IndexOf(done) else IndexOf(done)[b.id := Slot(LogLen(done), |b.payload|)]
    ensures NextId(done + [b]) ==
      if b.id != FENCE_ID then Max(NextId(done), b.id + 1)
      else if |b.payload| == 8 then Max(NextId(done), FromBE(b.payload)) else NextId(done)
  {
    assert (done + [b])[..|done|] == done;
  }

  /** The scan `open` runs: the index, the next id and the end of the intact log, record by record. */
  method Rebuild(bytes: Bytes) returns (index: map<nat, Slot>, next: nat, end: nat)
    ensures index == IndexOf(Scan(bytes)) && next == NextId(Scan(bytes)) && end == ScanEnd(bytes)
    ensures end == LogLen(Scan(bytes)) <= |bytes|
  {
    hide ReadRecord, IndexOf, NextId, LogLen, Scan, ScanEnd;
    index, next, end := map[], 0, 0;
    var rest := bytes;
    ghost var done: seq<Blob> := [];
    EmptyLog();
    while true
      invariant Scan(bytes) == done + Scan(rest) && ScanEnd(bytes) == end + ScanEnd(rest)
      invariant index == IndexOf(done) && next == NextId(done) && end == LogLen(done)
      decreases |rest|
    {
      var item := ReadRecord(rest);
      ScanStep(rest);
      if item.None? {
        assert done + [] == done;
        return;
      }
      var b := item.value.0;
      IndexStep(done, b);
      if b.id == FENCE_ID {
        if |b.payload| == 8 {
          next := Max(next, FromBE(b.payload));
        }
      } else {
        index, next := index[b.id := Slot(end, |b.payload|)], Max(next, b.id + 1);
      }
      Reassociate(done, [b], Scan(item.value.1));
      end, done, rest := end + 20 + |b.payload|, done + [b], item.value.1;
    }
  }
}
