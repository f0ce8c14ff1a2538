/** The blob store: an in-memory index that always equals a scan of the log. */
module BlobStore {
  import opened Types
  import opened Codec
  import opened Crc
  import opened BlobLog

  datatype BlobRef = BlobRef(id: nat, offset: nat, len: nat)

  /** Every blob in the log is what was once written under its id. */
  ghost predicate Faithful(blobs: seq<Blob>, written: map<nat, Bytes>) {
    forall i :: 0 <= i < |blobs| && blobs[i].id != FENCE_ID ==>
      blobs[i].id in written && written[blobs[i].id] == blobs[i].payload
  }

  /** The blobs a compaction keeps. */
  function Live(blobs: seq<Blob>, live: set<nat>): seq<Blob> {
    if blobs == [] then []
    else
      var init, b := Live(blobs[..|blobs| - 1], live), blobs[|blobs| - 1];
      if b.id == FENCE_ID || b.id !in live then init else init + [b]
  }

  function Fence(next: nat): Blob
    requires next < U64_LIMIT
  {
    Blob(FENCE_ID, U64BE(next))
  }

  // ---- compaction ----

  lemma {:induction false} LiveKeeps(blobs: seq<Blob>, live: set<nat>, written: map<nat, Bytes>)
    requires AllStorable(blobs) && Faithful(blobs, written)
    ensures AllStorable(Live(blobs, live)) && Faithful(Live(blobs, live), written)
    ensures NextId(Live(blobs, live)) <= NextId(blobs)
    ensures forall id :: id in IndexOf(Live(blobs, live)) <==> id in IndexOf(blobs) && id in live
  {
    hide Storable;
    if blobs != [] {
      var n := |blobs| - 1;
      LiveKeeps(blobs[..n], live, written);
      var init := Live(blobs[..n], live);
      assert (init + [blobs[n]])[..|init|] == init;
    }
  }

  /** A compacted log has the same next id, and the kept blobs' index. */
  lemma FencedLog(kept: seq<Blob>, next: nat, written: map<nat, Bytes>)
    requires AllStorable(kept) && NextId(kept) <= next < U64_LIMIT && Faithful(kept, written)
    ensures var blobs := kept + [Fence(next)];
      && AllStorable(blobs) && NextId(blobs) == next && IndexOf(blobs) == IndexOf(kept)
      && Faithful(blobs, written) && Log(blobs) == Log(kept) + Record(Fence(next))
  {
    hide Record, Storable, U64BE;
    var blobs := kept + [Fence(next)];
    assert blobs[..|kept|] == kept;
    assert Storable(Fence(next)) by { FenceStorable(next); }
  }

  lemma FenceStorable(next: nat)
    requires next < U64_LIMIT
    ensures Storable(Fence(next))
  {
  }

  lemma AddBlob(blobs: seq<Blob>, b: Blob, written: map<nat, Bytes>)
    requires AllStorable(blobs) && Storable(b) && b.id != FENCE_ID && b.id == NextId(blobs)
    requires Faithful(blobs, written) && (forall id :: id in written ==> id < NextId(blobs))
    ensures var blobs' := blobs + [b];
      && AllStorable(blobs') && Log(blobs') == Log(blobs) + Record(b)
      && IndexOf(blobs') == IndexOf(blobs)[b.id := Slot(LogLen(blobs), |b.payload|)]
      && NextId(blobs') == b.id + 1
      && b.id !in written && Faithful(blobs', written[b.id := b.payload])
  {
    hide Record, Storable;
    var blobs' := blobs + [b];
    assert blobs'[..|blobs|] == blobs;
  }

  /** An indexed blob's record can be read where the index says it lies, and holds what was written. */
  lemma ReadAtSlot(blobs: seq<Blob>, written: map<nat, Bytes>, file: Bytes, id: nat)
    requires AllStorable(blobs) && Faithful(blobs, written) && Log(blobs) <= file && id in IndexOf(blobs)
    ensures var slot := IndexOf(blobs)[id];
      && slot.offset <= |file| && id in written && slot.len == |written[id]|
      && ReadRecord(file[slot.offset..]).Some?
      && ReadRecord(file[slot.offset..]).value.0 == Blob(id, written[id])
  {
    hide ReadRecord, Record, Storable, Log, IndexOf, LogLen;
    var before, b, after := SlotHolds(blobs, id);
    assert b == blobs[|before|];
    forall i | 0 <= i < |before| ensures Storable(before[i]) { assert before[i] == blobs[i]; }
    forall i | 0 <= i < |after| ensures Storable(after[i]) { assert after[i] == blobs[|before| + 1 + i]; }
    LogConcat(before + [b], after);
    LogConcat(before, [b]);
    LogOne(b);
    LogLenIs(before);
    var rest := Log(after) + file[|Log(blobs)|..];
    FiveParts(Log(before), Record(b), Log(after), file);
    ReadRecordOf(b, rest);
  }

  lemma FiveParts(a: Bytes, b: Bytes, c: Bytes, file: Bytes)
    requires a + b + c <= file
    ensures file[|a|..] == b + (c + file[|a + b + c|..])
  {
  }

  lemma StartScan(all: seq<Blob>, bytes: Bytes)
    requires AllStorable(all) && bytes == Log(all)
    ensures Scan(bytes) == all && ScanEnd(bytes) == |bytes|
  {
    hide Log, Scan, ScanEnd;
    NoRecord();
    ScanWritten(all, []);
    assert Log(all) + [] == Log(all);
  }

  lemma LiveStep(done: seq<Blob>, b: Blob, live: set<nat>)
    requires AllStorable(Live(done, live)) && Storable(b)
    ensures AllStorable(Live(done + [b], live))
    ensures var kept, kept' := Live(done, live), Live(done + [b], live);
      if b.id == FENCE_ID || b.id !in live then kept' == kept
      else
        && |kept'| == |kept| + 1 && Log(kept') == Log(kept) + Record(b)
        && IndexOf(kept') == IndexOf(kept)[b.id := Slot(|Log(kept)|, |b.payload|)]
  {
    hide Record, Storable;
    var kept := Live(done, live);
    assert (done + [b])[..|done|] == done;
    LogLenIs(kept);
    assert (kept + [b])[..|kept|] == kept;
  }

  datatype Rewritten = Rewritten(out: Bytes, index: map<nat, Slot>)

  /**
   * Copy the live blobs of a log, record by record; `writes` of them succeed. A log that does not read to
   * its end, `end`, is damaged before it, and is refused rather than rewritten without what follows.
   */
  method CopyLive(bytes: Bytes, live: set<nat>, end: nat, writes: nat) returns (r: Option<Rewritten>)
    ensures AllStorable(Live(Scan(bytes), live))
    ensures r.Some? <==> ScanEnd(bytes) == end && |Live(Scan(bytes), live)| <= writes
    ensures r.Some? ==> r.value == Rewritten(Log(Live(Scan(bytes), live)), IndexOf(Live(Scan(bytes), live)))
  {
    hide ReadRecord, Record, Log, Storable, Scan, ScanEnd, Live, IndexOf;
    var out, index, failed, scanned, wrote := [], map[], false, 0, 0;
    var rest := bytes;
    ghost var done: seq<Blob> := [];
    EmptyLog();
    NoneLive(live);
    while true
      invariant Scan(bytes) == done + Scan(rest) && ScanEnd(bytes) == scanned + ScanEnd(rest)
      invariant AllStorable(Live(done, live))
      invariant !failed ==> out == Log(Live(done, live)) && index == IndexOf(Live(done, live))
      invariant if failed then |Live(done, live)| > writes else wrote == |Live(done, live)| <= writes
      decreases |rest|
    {
      var item := ReadRecord(rest);
      ScanStep(rest);
      if item.None? {
        assert done + [] == done;
        return if failed || scanned != end then None else Some(Rewritten(out, index));
      }
      var b := item.value.0;
      ReadIsStorable(rest);
      LiveStep(done, b, live);
      if !failed && b.id != FENCE_ID && b.id in live {
        if wrote < writes {
          out, index, wrote := out + Record(b), index[b.id := Slot(|out|, |b.payload|)], wrote + 1;
        } else {
          failed := true;
        }
      }
      Reassociate(done, [b], Scan(item.value.1));
      done, rest, scanned := done + [b], item.value.1, scanned + 20 + |b.payload|;
    }
  }

  lemma NoneLive(live: set<nat>)
    ensures Live([], live) == []
  {
  }

  // ---- what the store may do ----

  /** What changed the log: a blob stored under a new id, or a compaction. */
  datatype Event = Stored(blob: Blob) | Compacted(live: set<nat>)

  /**
   * A log a compaction replaced before its directory entry was durable, how many of its last records were
   * never synced, and how many blobs were handed out by then.
   */
  datatype Older = Older(blobs: seq<Blob>, past: seq<Event>, soft: nat, given: nat)

  /**
   * The intact records of the log; the record a failed append may have left a prefix of; the events the
   * log reflects; how many of its last records were found by a reopen in bytes never synced; the logs a
   * power cut may bring back; and the blobs handed out, in order.
   */
  datatype State = State(
    blobs: seq<Blob>, torn: Option<Blob>, past: seq<Event>, soft: nat, olders: seq<Older>, handed: seq<Blob>)

  datatype Step =
    | Put(value: Bytes) | FailedPut | PoisonPut(value: Bytes) | Compact(live: set<nat>, synced: bool)
    | Reopen(whole: bool, cut: bool) | PowerCut(log: nat, lost: nat)

  function NextBlob(s: State, value: Bytes): Blob { Blob(NextId(s.blobs), value) }

  /** All but the last `n`. */
  function Dropped<T>(xs: seq<T>, n: nat): seq<T> { if n <= |xs| then xs[..|xs| - n] else [] }

  /** The log with the record in doubt, if there is one, and what it then reflects. */
  function Whole(blobs: seq<Blob>, torn: Option<Blob>): seq<Blob> {
    if torn.Some? then blobs + [torn.value] else blobs
  }

  function WholePast(past: seq<Event>, torn: Option<Blob>): seq<Event> {
    if torn.Some? then past + [Stored(torn.value)] else past
  }

  function Loose(soft: nat, torn: Option<Blob>): nat { if torn.Some? then soft + 1 else soft }

  predicate Enabled(s: State, t: Step) {
    match t
    case Put(value) => s.torn.None? && NextId(s.blobs) < FENCE_ID && |value| < U64_LIMIT
    case FailedPut => s.torn.None? && NextId(s.blobs) < FENCE_ID
    case PoisonPut(value) => s.torn.None? && NextId(s.blobs) < FENCE_ID && |value| < U64_LIMIT
    case Compact(_, _) => s.torn.None? && NextId(s.blobs) < U64_LIMIT
    case Reopen(_, _) => true
    case PowerCut(log, lost) =>
      if log < |s.olders| then lost <= s.olders[log].soft else log == |s.olders| && lost <= Loose(s.soft, s.torn)
  }

  /**
   * The log scanned afresh, the machine running on: a record in doubt that was written whole is found, and
   * is no more synced than it was; a torn one is cut off and the cut synced.
   */
  function Reopened(s: State, whole: bool, cut: bool): State {
    if s.torn.None? then s
    else if whole
    then s.(blobs := Whole(s.blobs, s.torn), torn := None, past := WholePast(s.past, s.torn), soft := s.soft + 1)
    else s.(torn := None, soft := if cut then 0 else s.soft)
  }

  function Perform(s: State, t: Step): State
    requires Enabled(s, t)
  {
    match t
    case Put(value) =>
      var b := NextBlob(s, value);
      s.(blobs := s.blobs + [b], past := s.past + [Stored(b)], soft := 0, handed := s.handed + [b])
    case FailedPut => s.(soft := 0)
    case PoisonPut(value) => s.(torn := Some(NextBlob(s, value)))
    case Compact(live, synced) =>
      s.(blobs := Live(s.blobs, live) + [Fence(NextId(s.blobs))], past := s.past + [Compacted(live)], soft := 0,
         olders := if synced then [] else s.olders + [Older(s.blobs, s.past, s.soft, |s.handed|)])
    case Reopen(whole, cut) => Reopened(s, whole, cut)
    case PowerCut(log, lost) =>
      var blobs := if log < |s.olders| then s.olders[log].blobs else Whole(s.blobs, s.torn);
      var past := if log < |s.olders| then s.olders[log].past else WholePast(s.past, s.torn);
      State(Dropped(blobs, lost), None, Dropped(past, lost), 0, [], s.handed)
  }

  /** The bytes stored under each id. */
  function Written(past: seq<Event>): map<nat, Bytes> {
    if past == [] then map[]
    else
      var before := Written(past[..|past| - 1]);
      match past[|past| - 1]
      case Stored(b) => before[b.id := b.payload]
      case Compacted(_) => before
  }

  /** A log and the events it reflects: every blob in it is what was stored under its id, and new ids are new. */
  ghost predicate LogOk(blobs: seq<Blob>, past: seq<Event>) {
    && AllStorable(blobs) && NextId(blobs) < U64_LIMIT
    && Faithful(blobs, Written(past)) && (forall id :: id in Written(past) ==> id < NextId(blobs))
  }

  /** So is the log with any of its last `soft` records, and what they did, gone. */
  ghost predicate LogsOk(blobs: seq<Blob>, past: seq<Event>, soft: nat) {
    && soft <= |blobs| && soft <= |past|
    && forall k: nat {:trigger Dropped(blobs, k)} :: k <= soft ==> LogOk(Dropped(blobs, k), Dropped(past, k))
  }

  lemma DropNone<T>(xs: seq<T>)
    ensures Dropped(xs, 0) == xs
  {
  }

  lemma DropMore<T>(xs: seq<T>, x: T, k: nat)
    ensures Dropped(xs + [x], k + 1) == Dropped(xs, k)
  {
  }

  lemma LogsFirm(blobs: seq<Blob>, past: seq<Event>, soft: nat)
    ensures LogOk(blobs, past) ==> LogsOk(blobs, past, 0)
    ensures LogsOk(blobs, past, soft) ==> LogOk(blobs, past)
  {
    hide LogOk;
    DropNone(blobs);
    DropNone(past);
    if LogsOk(blobs, past, soft) {
      assert LogOk(Dropped(blobs, 0), Dropped(past, 0));
    }
  }

  /** A record in doubt that turns out whole is one more that was never synced. */
  lemma LogsMore(blobs: seq<Blob>, past: seq<Event>, soft: nat, b: Blob)
    requires LogsOk(blobs, past, soft) && LogOk(blobs + [b], past + [Stored(b)])
    ensures LogsOk(blobs + [b], past + [Stored(b)], soft + 1)
  {
    hide LogOk, Dropped;
    var blobs', past' := blobs + [b], past + [Stored(b)];
    forall k: nat | k <= soft + 1 ensures LogOk(Dropped(blobs', k), Dropped(past', k)) {
      if k == 0 {
        DropNone(blobs');
        DropNone(past');
      } else {
        DropMore(blobs, b, k - 1);
        DropMore(past, Stored(b), k - 1);
        assert LogOk(Dropped(blobs, k - 1), Dropped(past, k - 1));
      }
    }
  }

  lemma StorableLog(blobs: seq<Blob>, past: seq<Event>)
    requires LogOk(blobs, past)
    ensures AllStorable(blobs) && NextId(blobs) < U64_LIMIT
  {
  }

  lemma WrittenNext(past: seq<Event>, e: Event)
    ensures Written(past + [e]) == if e.Stored? then Written(past)[e.blob.id := e.blob.payload] else Written(past)
  {
    assert (past + [e])[..|past|] == past;
  }

  lemma StoreOk(blobs: seq<Blob>, past: seq<Event>, b: Blob)
    requires LogOk(blobs, past) && Storable(b) && b.id == NextId(blobs) < FENCE_ID
    ensures LogOk(blobs + [b], past + [Stored(b)]) && b.id !in Written(past)
    ensures Log(blobs + [b]) == Log(blobs) + Record(b) && NextId(blobs + [b]) == b.id + 1
    ensures IndexOf(blobs + [b]) == IndexOf(blobs)[b.id := Slot(LogLen(blobs), |b.payload|)]
  {
    hide Record, Log, IndexOf, NextId, Storable, AllStorable;
    AddBlob(blobs, b, Written(past));
    WrittenNext(past, Stored(b));
  }

  lemma CompactOk(blobs: seq<Blob>, past: seq<Event>, live: set<nat>)
    requires LogOk(blobs, past)
    ensures var kept, next := Live(blobs, live), NextId(blobs);
      var blobs' := kept + [Fence(next)];
      && LogOk(blobs', past + [Compacted(live)]) && NextId(blobs') == next && AllStorable(kept)
      && IndexOf(blobs') == IndexOf(kept) && Storable(Fence(next)) && Log(blobs') == Log(kept) + Record(Fence(next))
      && forall id :: id in IndexOf(blobs') <==> id in IndexOf(blobs) && id in live
  {
    hide Record, Log, IndexOf, NextId, Storable, Live, Fence;
    LiveKeeps(blobs, live, Written(past));
    FencedLog(Live(blobs, live), NextId(blobs), Written(past));
    FenceStorable(NextId(blobs));
    WrittenNext(past, Compacted(live));
  }

  /** Any byte prefix of a log that takes in all but its last `loose` records is scanned as all but some of those. */
  lemma {:induction false} ScanPrefix(blobs: seq<Blob>, loose: nat, file: Bytes) returns (lost: nat)
    requires AllStorable(blobs) && AllStorable(Dropped(blobs, loose)) && loose <= |blobs|
    requires Log(Dropped(blobs, loose)) <= file <= Log(blobs)
    ensures lost <= loose && AllStorable(Dropped(blobs, lost))
    ensures Scan(file) == Dropped(blobs, lost) && ScanEnd(file) == |Log(Dropped(blobs, lost))|
    ensures Log(Dropped(blobs, lost)) <= file
    decreases loose
  {
    hide Record, Log, Storable, Scan, ScanEnd, Dropped, ReadRecord;
    DropNone(blobs);
    if file == Log(blobs) {
      StartScan(blobs, file);
      lost := 0;
    } else {
      assert loose > 0;
      var init, b := LastBlob(blobs);
      DropMore(init, b, loose - 1);
      if Log(init) <= file {
        var n := |file| - |Log(init)|;
        assert file == Log(init) + Record(b)[..n];
        ScanAfterCut(init, b, n);
        lost := 1;
        DropMore(init, b, 0);
        DropNone(init);
      } else {
        assert file <= Log(init);
        lost := ScanPrefix(init, loose - 1, file);
        DropMore(init, b, lost);
        lost := lost + 1;
      }
    }
  }

  lemma LastBlob(blobs: seq<Blob>) returns (init: seq<Blob>, b: Blob)
    requires AllStorable(blobs) && blobs != []
    ensures blobs == init + [b] && AllStorable(init) && Storable(b) && Log(blobs) == Log(init) + Record(b)
    ensures |init| == |blobs| - 1
  {
    hide Record, Storable;
    init, b := blobs[..|blobs| - 1], blobs[|blobs| - 1];
  }

  /** The bytes of `b`'s record with part of its payload changed, under its old checksum. */
  function DamagedRecordOf(b: Blob, i: nat, j: nat, v: Bytes): Bytes
    requires Storable(b) && i <= j <= |b.payload| && j - i == |v|
  {
    U64BE(b.id) + U64BE(|b.payload|) + (b.payload[..i] + v + b.payload[j..]) + U32BE(Crc32(Covered(b)))
  }

  /**
   * Damage to a record's payload within four consecutive bytes ends a scan there, whatever follows: short
   * of the log's end, so a compaction refuses it, and with the index and next id of what came before.
   */
  lemma DamagedLogIsRefused(before: seq<Blob>, b: Blob, i: nat, j: nat, v: Bytes, rest: Bytes)
    requires AllStorable(before) && Storable(b) && i <= j <= |b.payload| && j - i == |v| <= 4 && v != b.payload[i..j]
    ensures var bytes := Log(before) + (DamagedRecordOf(b, i, j, v) + rest);
      && Scan(bytes) == before && ScanEnd(bytes) == |Log(before)| < |bytes|
      && IndexOf(Scan(bytes)) == IndexOf(before) && NextId(Scan(bytes)) == NextId(before)
  {
    hide ReadRecord, Record, Log, Scan, ScanEnd, IndexOf, NextId, DamagedRecordOf;
    DamagedRecord(b, i, j, v, rest);
    ScanWritten(before, DamagedRecordOf(b, i, j, v) + rest);
  }

  lemma DamagedRecord(b: Blob, i: nat, j: nat, v: Bytes, rest: Bytes)
    requires Storable(b) && i <= j <= |b.payload| && j - i == |v| <= 4 && v != b.payload[i..j]
    ensures ReadRecord(DamagedRecordOf(b, i, j, v) + rest) == None && DamagedRecordOf(b, i, j, v) != []
  {
    hide Crc32, U32BE, U64BE, FromBE;
    var head, n := U64BE(b.id) + U64BE(|b.payload|), |b.payload|;
    var payload := b.payload[..i] + v + b.payload[j..];
    var crc := U32BE(Crc32(Covered(b)));
    assert Covered(b) == head + b.payload[..i] + b.payload[i..j] + b.payload[j..] by {
      assert b.payload == b.payload[..i] + b.payload[i..j] + b.payload[j..];
    }
    assert head + payload == head + b.payload[..i] + v + b.payload[j..];
    FourByteBurstDetected(head + b.payload[..i], v, b.payload[i..j], b.payload[j..]);
    var r := DamagedRecordOf(b, i, j, v) + rest;
    assert r == head + payload + crc + rest;
    assert r[..16 + n] == head + payload && r[16 + n..20 + n] == crc;
    assert r[8..16] == U64BE(n) by { assert (head + payload)[8..16] == U64BE(n); }
  }

  /** What the file operations of a put do: how many bytes reach the file, whether the sync succeeds, and
      whether the cut that undoes a failure does, and its sync. */
  datatype PutFaults = PutFaults(wrote: nat, synced: bool, cut: bool, cutSynced: bool)

  /** What those of a compaction do: whether the new file is created, how many records are written to it,
      whether it is synced and renamed, and whether the directory is synced. */
  datatype CompactFaults = CompactFaults(created: bool, writes: nat, published: bool, dirSynced: bool)

  class ValueStore {
    var file: Bytes
    var nextId: nat
    var end: nat
    var index: map<nat, Slot>
    var poisoned: bool
    /** The logs the name may still stand for after a power cut: a compaction replaced them, unsynced. */
    var replaced: seq<Bytes>
    /** The intact records of the log. */
    ghost var blobs: seq<Blob>
    /** The record a failed append may have left a prefix of. */
    ghost var torn: Blob
    ghost var past: seq<Event>
    /** How many of the last records were never synced. */
    ghost var soft: nat
    ghost var olders: seq<Older>
    ghost var handed: seq<Blob>

    /** The index, the end and the next id are exactly what a scan of the log gives. */
    ghost predicate Valid()
      reads this
    {
      && LogsOk(blobs, past, soft) && LogOk(blobs, past)
      && index == IndexOf(blobs) && end == |Log(blobs)| && nextId == NextId(blobs)
      && OldersOk(replaced, olders)
      && (if poisoned then
            Storable(torn) && torn.id == nextId < FENCE_ID && Log(blobs) <= file <= Log(blobs) + Record(torn)
          else file == Log(blobs))
    }

    ghost function View(): State
      reads this
    {
      State(blobs, Doubt(), past, soft, olders, handed)
    }

    ghost function Doubt(): Option<Blob>
      reads this
    {
      if poisoned then Some(torn) else None
    }

    constructor ()
      ensures Valid() && View() == State([], None, [], 0, [], [])
    {
      file, nextId, end, index, poisoned, replaced := [], 0, 0, map[], false, [];
      blobs, torn, past, soft, olders, handed := [], Blob(0, []), [], 0, [], [];
    }

    /** Cut the log back to its last intact record and sync the cut, or poison the store. */
    method RollBack(io: PutFaults)
      requires end <= |file|
      modifies this`file, this`poisoned
      ensures poisoned <==> old(poisoned) || !io.cut || !io.cutSynced
      ensures file == if io.cut then old(file)[..end] else old(file)
    {
      if io.cut {
        file := file[..end];
      }
      if !io.cut || !io.cutSynced {
        poisoned := true;
      }
    }

    /** Append a blob. An id is handed out only for a durable record, and whenever the record is written and
        synced; a failed put leaves nothing, or poisons. */
    method Put(value: Bytes, io: PutFaults) returns (r: Option<BlobRef>)
      requires Valid() && |value| < U64_LIMIT
      modifies this
      ensures Valid()
      ensures r.Some? <==> !old(poisoned) && old(nextId) != FENCE_ID && io.wrote >= 20 + |value| && io.synced
      ensures r.Some? ==> Enabled(old(View()), Step.Put(value)) && View() == Perform(old(View()), Step.Put(value))
      ensures r.Some? ==> r.value == BlobRef(old(nextId), old(end), |value|) && r.value.id !in Written(old(past))
      ensures r.None? ==>
        if old(poisoned) || old(nextId) == FENCE_ID then View() == old(View())
        else if io.cut && io.cutSynced then Enabled(old(View()), FailedPut) && View() == Perform(old(View()), FailedPut)
        else Enabled(old(View()), PoisonPut(value)) && View() == Perform(old(View()), PoisonPut(value))
      ensures r.None? && !poisoned ==> file == old(file)
    {
      hide Record, Log, IndexOf, NextId, Storable, LogOk, LogsOk, OldersOk;
      if poisoned || nextId == FENCE_ID {
        return None;
      }
      var b := Blob(nextId, value);
      PutFacts(blobs, past, b);
      LogsFirm(blobs, past, soft);
      var n := Min(io.wrote, |Record(b)|);
      file := file + Record(b)[..n];
      if n < |Record(b)| || !io.synced {
        torn := b;
        assert Log(blobs) <= file <= Log(blobs) + Record(b);
        RollBack(io);
        if !poisoned {
          soft := 0;
        }
        return None;
      }
      assert Record(b)[..n] == Record(b);
      LogsFirm(blobs + [b], past + [Stored(b)], 0);
      r := Some(BlobRef(b.id, end, |value|));
      end, nextId, index := end + 20 + |value|, b.id + 1, index[b.id := Slot(end, |value|)];
      blobs, past, soft, handed := blobs + [b], past + [Stored(b)], 0, handed + [b];
    }

    static lemma PutFacts(blobs: seq<Blob>, past: seq<Event>, b: Blob)
      requires LogOk(blobs, past) && b.id == NextId(blobs) != FENCE_ID && |b.payload| < U64_LIMIT
      ensures AllStorable(blobs) && Storable(b) && b.id < FENCE_ID
      ensures LogOk(blobs + [b], past + [Stored(b)]) && b.id !in Written(past) && AllStorable(blobs + [b])
      ensures Log(blobs + [b]) == Log(blobs) + Record(b) && NextId(blobs + [b]) == b.id + 1
      ensures IndexOf(blobs + [b]) == IndexOf(blobs)[b.id := Slot(|Log(blobs)|, |b.payload|)]
    {
      hide Record, Log, IndexOf, NextId;
      StoreOk(blobs, past, b);
      LogLenIs(blobs);
    }

    /** A handle reads its original bytes exactly when its blob is still in the log. */
    method Get(ref: BlobRef) returns (r: Option<Bytes>)
      requires Valid()
      ensures ref.id in index ==> ref.id in Written(past)
      ensures r ==
        if ref.id in index && |Written(past)[ref.id]| == ref.len then Some(Written(past)[ref.id]) else None
    {
      hide ReadRecord, Record, Log, IndexOf, NextId, Storable, AllStorable, Faithful, Written;
      if ref.id !in index {
        return None;
      }
      var slot := index[ref.id];
      assert Log(blobs) <= file;
      ReadAtSlot(blobs, Written(past), file, ref.id);
      if slot.len != ref.len {
        return None;
      }
      var read := ReadRecord(file[slot.offset..]);
      if read.None? || read.value.0.id != ref.id || |read.value.0.payload| != slot.len {
        return None;
      }
      r := Some(read.value.0.payload);
    }

    /**
     * Rewrite the log with only the blobs in `live`. Whatever fails, the store is left with the old log
     * or the new one; ids keep their blobs, and the fence keeps dropped ids from coming back. If only
     * the directory sync fails, the new log is in use and a power cut may still bring the old one back.
     * Nothing else refuses a healthy store's compaction.
     */
    method Compact(live: set<nat>, io: CompactFaults) returns (r: Option<nat>)
      requires Valid()
      modifies this
      ensures Valid() && nextId == old(nextId) && poisoned == old(poisoned)
      ensures r.Some? <==> !old(poisoned) && CopyPublished(old(blobs), live, io) && io.dirSynced
      ensures r.Some? ==> r.value == end && Enabled(old(View()), Step.Compact(live, true))
      ensures r.Some? ==> View() == Perform(old(View()), Step.Compact(live, true))
      ensures r.Some? ==> forall id :: id in index <==> id in old(index) && id in live
      ensures r.None? ==>
        if old(poisoned) || !CopyPublished(old(blobs), live, io) then View() == old(View())
        else
          && Enabled(old(View()), Step.Compact(live, false))
          && View() == Perform(old(View()), Step.Compact(live, false))
    {
      hide ReadRecord, Record, Log, NextId, IndexOf, Live, Storable, Scan, ScanEnd, Fence, LogOk, LogsOk, OldersOk;
      if poisoned || !io.created {
        return None;
      }
      CompactFacts(blobs, past, live, file);
      var copied := CopyLive(file, live, end, io.writes);
      if copied.None? || |Live(Scan(file), live)| == io.writes {
        return None;
      }
      var out := copied.value.out + Record(Fence(nextId));
      if !io.published {
        return None;
      }
      Switch(out, copied.value.index, live, io.dirSynced);
      r := if io.dirSynced then Some(end) else None;
    }

    /** The new file has been created, every live blob and the fence written to it, and its name has moved. */
    static predicate CopyPublished(blobs: seq<Blob>, live: set<nat>, io: CompactFaults) {
      io.created && |Live(blobs, live)| < io.writes && io.published
    }

    /** The compacted log takes the old one's place, for good once the directory is synced. */
    method Switch(out: Bytes, newIndex: map<nat, Slot>, live: set<nat>, dirSynced: bool)
      requires Valid() && !poisoned
      requires var kept := Live(blobs, live);
        AllStorable(kept) && out == Log(kept) + Record(Fence(nextId)) && newIndex == IndexOf(kept)
      modifies this
      ensures Valid() && nextId == old(nextId) && !poisoned
      ensures Enabled(old(View()), Step.Compact(live, dirSynced))
      ensures View() == Perform(old(View()), Step.Compact(live, dirSynced))
      ensures forall id :: id in index <==> id in old(index) && id in live
    {
      hide Record, Log, NextId, IndexOf, Live, Storable, Fence, LogOk, LogsOk, OldersOk, Enabled, Perform;
      CompactFacts(blobs, past, live, file);
      OldersMore(replaced, olders, file, Older(blobs, past, soft, |handed|));
      CompactIs(View(), live, dirSynced);
      if dirSynced {
        replaced, olders := [], [];
      } else {
        replaced, olders := replaced + [file], olders + [Older(blobs, past, soft, |handed|)];
      }
      file, index, end, blobs := out, newIndex, |out|, Live(blobs, live) + [Fence(nextId)];
      past, soft := past + [Compacted(live)], 0;
      LogsFirm(blobs, past, 0);
    }

    static lemma CompactIs(s: State, live: set<nat>, synced: bool)
      requires s.torn.None? && NextId(s.blobs) < U64_LIMIT
      ensures Enabled(s, Step.Compact(live, synced))
      ensures var s' := Perform(s, Step.Compact(live, synced));
        && s'.blobs == Live(s.blobs, live) + [Fence(NextId(s.blobs))] && s'.past == s.past + [Compacted(live)]
        && s'.torn.None? && s'.soft == 0 && s'.handed == s.handed
        && s'.olders == if synced then [] else s.olders + [Older(s.blobs, s.past, s.soft, |s.handed|)]
    {
    }

    static lemma CompactFacts(blobs: seq<Blob>, past: seq<Event>, live: set<nat>, file: Bytes)
      requires LogOk(blobs, past) && file == Log(blobs)
      ensures Scan(file) == blobs && ScanEnd(file) == |file|
      ensures NextId(blobs) < U64_LIMIT
      ensures var kept, next := Live(blobs, live), NextId(blobs);
        var blobs' := kept + [Fence(next)];
        && LogOk(blobs', past + [Compacted(live)]) && NextId(blobs') == next && AllStorable(kept) && AllStorable(blobs')
        && IndexOf(blobs') == IndexOf(kept) && Storable(Fence(next)) && Log(blobs') == Log(kept) + Record(Fence(next))
        && forall id :: id in IndexOf(blobs') <==> id in IndexOf(blobs) && id in live
    {
      hide ReadRecord, Record, Log, NextId, IndexOf, Live, Scan, ScanEnd, Fence;
      StartScan(blobs, file);
      CompactOk(blobs, past, live);
    }

    /**
     * Drop the store and open it again, the machine running on: the log is scanned and a torn tail cut
     * off. A healthy store comes back exactly as it was; a poisoned one with or without the record in
     * doubt, which stays unsynced if it is found.
     */
    method Reopen()
      requires Valid()
      modifies this
      ensures Valid() && !poisoned
      ensures exists whole, cut :: View() == Perform(old(View()), Step.Reopen(whole, cut))
      ensures !old(poisoned) ==> index == old(index) && end == old(end) && nextId == old(nextId) && file == old(file)
    {
      hide Record, Log, Storable, LogOk, LogsOk, OldersOk, MayFind, Dropped, NextId, IndexOf;
      ghost var before := View();
      DoubtOk(blobs, past, soft, Doubt());
      StorableLog(blobs, past);
      FileMayBeFound(blobs, Doubt(), file);
      ghost var lost, cut := Load(Whole(blobs, Doubt()), WholePast(past, Doubt()), Loose(0, Doubt()));
      DropNone(before.blobs);
      DropNone(before.past);
      if before.torn.Some? {
        if lost == 0 {
          soft := before.soft + 1;
        } else {
          soft := if cut then 0 else before.soft;
          DropLast(before.blobs, before.torn.value);
          DropLast(before.past, Stored(before.torn.value));
        }
        DropNone(Whole(before.blobs, before.torn));
        DropNone(WholePast(before.past, before.torn));
      }
      LogsFirm(blobs, past, before.soft);
      assert View() == Perform(before, Step.Reopen(lost == 0, cut));
    }

    static lemma DropLast<T>(xs: seq<T>, x: T)
      ensures Dropped(xs + [x], 1) == xs
    {
    }

    /**
     * The machine stops and the store is opened again. `found` is the log it comes back with: the current
     * one, or one that a compaction had replaced without its directory entry becoming durable, in either
     * case with any byte prefix of what was not synced.
     */
    method PowerCut(found: Bytes, log: nat)
      requires Valid() && log <= |olders|
      requires if log < |olders| then MayFind(olders[log].blobs, None, olders[log].soft, found)
        else MayFind(blobs, Doubt(), soft, found)
      modifies this
      ensures Valid() && !poisoned
      ensures exists lost ::
        Enabled(old(View()), Step.PowerCut(log, lost)) && View() == Perform(old(View()), Step.PowerCut(log, lost))
    {
      hide Record, Log, Storable, LogOk, LogsOk, MayFind, Dropped, NextId, IndexOf;
      ghost var before := View();
      ghost var all, events, loose := blobs, past, soft;
      if log < |olders| {
        all, events, loose := olders[log].blobs, olders[log].past, olders[log].soft;
        DoubtOk(all, events, loose, None);
      } else {
        DoubtOk(blobs, past, soft, Doubt());
        all, events, loose := Whole(blobs, Doubt()), WholePast(past, Doubt()), Loose(soft, Doubt());
      }
      SameFind(blobs, past, soft, Doubt(), found);
      file, replaced, olders := found, [], [];
      ghost var lost, cut := Load(all, events, loose);
      soft := 0;
      LogsFirm(blobs, past, 0);
      assert Enabled(before, Step.PowerCut(log, lost)) && View() == Perform(before, Step.PowerCut(log, lost));
    }

    /** `open` on the current file: scan it, cut off a torn tail, rebuild what is kept in memory. */
    method Load(ghost all: seq<Blob>, ghost events: seq<Event>, ghost loose: nat)
      returns (ghost lost: nat, ghost cut: bool)
      requires LogsOk(all, events, loose) && MayFind(all, None, loose, file) && OldersOk(replaced, olders)
      modifies this`file, this`nextId, this`end, this`index, this`poisoned, this`blobs, this`past
      ensures !poisoned && lost <= loose && blobs == Dropped(all, lost) && past == Dropped(events, lost)
      ensures LogOk(blobs, past) && AllStorable(blobs) && file == Log(blobs)
      ensures index == IndexOf(blobs) && end == |Log(blobs)| && nextId == NextId(blobs)
      ensures cut <==> |old(file)| > end
    {
      hide ReadRecord, Record, Log, Storable, Scan, ScanEnd, IndexOf, NextId, LogLen, LogOk, Dropped;
      lost := ScanPrefix(all, loose, file);
      ghost var found := Dropped(all, lost);
      assert LogOk(found, Dropped(events, lost));
      LogLenIs(found);
      var idx, next, pos := Rebuild(file);
      cut := |file| > pos;
      file, index, nextId, end, poisoned := file[..pos], idx, next, pos, false;
      blobs, past := found, Dropped(events, lost);
    }
  }

  /** What may be found of a log: everything synced, and any byte prefix of the rest. */
  ghost predicate MayFind(blobs: seq<Blob>, torn: Option<Blob>, soft: nat, found: Bytes) {
    var all, loose := Whole(blobs, torn), Loose(soft, torn);
    && AllStorable(all) && loose <= |all| && AllStorable(Dropped(all, loose))
    && Log(Dropped(all, loose)) <= found <= Log(all)
  }

  ghost predicate OldersOk(replaced: seq<Bytes>, olders: seq<Older>) {
    && |replaced| == |olders|
    && forall i {:trigger olders[i]} :: 0 <= i < |olders| ==>
      LogsOk(olders[i].blobs, olders[i].past, olders[i].soft) && LogOk(olders[i].blobs, olders[i].past) &&
      replaced[i] == Log(olders[i].blobs)
  }

  lemma OldersMore(replaced: seq<Bytes>, olders: seq<Older>, file: Bytes, o: Older)
    requires OldersOk(replaced, olders) && LogsOk(o.blobs, o.past, o.soft) && LogOk(o.blobs, o.past)
    requires file == Log(o.blobs)
    ensures OldersOk(replaced + [file], olders + [o]) && OldersOk([], [])
  {
    hide LogOk, LogsOk, Log, Storable;
    var olders' := olders + [o];
    forall i | 0 <= i < |olders'| ensures
      LogsOk(olders'[i].blobs, olders'[i].past, olders'[i].soft) && LogOk(olders'[i].blobs, olders'[i].past)
    {
      if i < |olders| {
        assert olders'[i] == olders[i];
      }
    }
  }

  /** The log with the record in doubt is one more whose tail may be gone. */
  lemma DoubtOk(blobs: seq<Blob>, past: seq<Event>, soft: nat, torn: Option<Blob>)
    requires LogsOk(blobs, past, soft) && LogOk(blobs, past)
    requires torn.Some? ==> Storable(torn.value) && torn.value.id == NextId(blobs) < FENCE_ID
    ensures LogsOk(Whole(blobs, torn), WholePast(past, torn), Loose(soft, torn))
    ensures LogsOk(Whole(blobs, torn), WholePast(past, torn), Loose(0, torn))
  {
    hide LogOk, LogsOk, NextId, Storable;
    LogsFirm(blobs, past, soft);
    if torn.Some? {
      StoreOk(blobs, past, torn.value);
      LogsMore(blobs, past, soft, torn.value);
      LogsMore(blobs, past, 0, torn.value);
    }
  }

  /** What a running process finds is what it wrote. */
  lemma FileMayBeFound(blobs: seq<Blob>, torn: Option<Blob>, file: Bytes)
    requires AllStorable(blobs) && (torn.Some? ==> Storable(torn.value))
    requires if torn.Some? then Log(blobs) <= file <= Log(blobs) + Record(torn.value) else file == Log(blobs)
    ensures MayFind(Whole(blobs, torn), None, Loose(0, torn), file)
  {
    hide Record, Storable;
    DropNone(blobs);
    if torn.Some? {
      DropMore(blobs, torn.value, 0);
      LogConcat(blobs, [torn.value]);
      LogOne(torn.value);
    }
  }

  lemma SameFind(blobs: seq<Blob>, past: seq<Event>, soft: nat, torn: Option<Blob>, found: Bytes)
    ensures MayFind(blobs, torn, soft, found) ==> MayFind(Whole(blobs, torn), None, Loose(soft, torn), found)
  {
  }
}
