/** Segment files of the write-ahead log: the header, the frames, the scan, and tail repair. */
module WalSegment {
  import opened Types
  import opened Codec
  import opened Crc
  import opened WalRecord

  const MAGIC: Bytes := [75, 83, 87, 76]
  const VERSION: nat := 1
  const HEADER_LEN: nat := 12
  const MIN_PAYLOAD: nat := 25

  datatype Error = InvalidData | Unsupported

  /** How a segment ends: on a record boundary, or torn from an offset on. */
  datatype Tail = Clean | Torn(at: nat)

  datatype Scan = Scanned(recs: seq<Record>, tail: Tail) | Refused(error: Error)

  // ---- writing ----

  function HeaderFor(version: nat): (b: Bytes)
    requires version < U32_LIMIT
    ensures |b| == HEADER_LEN
  {
    var start := MAGIC + U32(version);
    start + U32(Crc32(start))
  }

  function Header(): (b: Bytes)
    ensures |b| == HEADER_LEN
  {
    HeaderFor(VERSION)
  }

  /** A payload between its length and its checksum. */
  function FramePayload(payload: Bytes): (b: Bytes)
    requires |payload| <= MAX_PAYLOAD
    ensures |b| == |payload| + 8
  {
    Chunk(payload) + U32(Crc32(payload))
  }

  function Frame(r: Record): (b: Bytes)
    requires Framable(r)
    ensures |b| == PayloadLen(r.ops) + 8
  {
    FramePayload(EncodePayload(r))
  }

  predicate AllFramable(recs: seq<Record>) {
    forall i :: 0 <= i < |recs| ==> Framable(recs[i])
  }

  function Frames(recs: seq<Record>): Bytes
    requires AllFramable(recs)
  {
    if recs == [] then [] else Frame(recs[0]) + Frames(recs[1..])
  }

  /** The bytes of a segment holding `recs`. */
  function Segment(recs: seq<Record>): Bytes
    requires AllFramable(recs)
  {
    Header() + Frames(recs)
  }

  /** A segment starts with KSWL, the version 1 and the checksum of those eight bytes; a frame is a payload
      between its length and its checksum. */
  lemma SegmentBytes(payload: Bytes)
    requires |payload| <= MAX_PAYLOAD
    ensures var h := Header();
            |h| == 12 && h[..4] == [0x4B, 0x53, 0x57, 0x4C] && FromLE(h[4..8]) == 1 && FromLE(h[8..]) == Crc32(h[..8])
    ensures var f, n := FramePayload(payload), |payload|;
            |f| == n + 8 && FromLE(f[..4]) == n && f[4..4 + n] == payload && FromLE(f[4 + n..]) == Crc32(payload)
  {
    hide FromLE, Crc32;
    var h, f, n := Header(), FramePayload(payload), |payload|;
    assert h[..8] == MAGIC + U32(VERSION);
    assert h[4..8] == U32(VERSION) && h[8..] == U32(Crc32(h[..8]));
    assert f[..4] == U32(n) && f[4..4 + n] == payload && f[4 + n..] == U32(Crc32(payload));
  }

  // ---- reading ----

  function Prepend(recs: seq<Record>, s: Scan): Scan {
    if s.Scanned? then Scanned(recs + s.recs, s.tail) else s
  }

  /** The payload and what follows its frame; `None` if the frame is cut short, too small or fails its checksum. */
  function ReadFrame(b: Bytes): (f: Option<(Bytes, Bytes)>)
    ensures f.Some? ==> |b| == |f.value.0| + |f.value.1| + 8
  {
    var chunk := ReadChunk(b);
    if chunk.None? || |chunk.value.0| < MIN_PAYLOAD || |chunk.value.1| < 4 then None
    else if Crc32(chunk.value.0) != FromLE(chunk.value.1[..4]) then None
    else Some((chunk.value.0, chunk.value.1[4..]))
  }

  /** Scan the frames of `b`, which begins at offset `at` of its segment. */
  function ScanFrames(b: Bytes, at: nat): (s: Scan)
    ensures s.Scanned? && s.tail.Torn? ==> at <= s.tail.at < at + |b|
    decreases |b|
  {
    if b == [] then Scanned([], Clean)
    else
      var f := ReadFrame(b);
      if f.None? then Scanned([], Torn(at))
      else
        var r := DecodePayload(f.value.0);
        if r.None? then Refused(InvalidData)
        else Prepend([r.value], ScanFrames(f.value.1, at + |f.value.0| + 8))
  }

  function ScanSegment(b: Bytes): (s: Scan)
    ensures s.Scanned? && s.tail.Torn? ==> s.tail.at <= |b|
  {
    if |b| < HEADER_LEN then Scanned([], Torn(0))
    else if b[..4] != MAGIC || Crc32(b[..8]) != FromLE(b[8..12]) then
      if |b| == HEADER_LEN then Scanned([], Torn(0)) else Refused(InvalidData)
    else if FromLE(b[4..8]) != VERSION then Refused(Unsupported)
    else ScanFrames(b[HEADER_LEN..], HEADER_LEN)
  }

  /** `scan_segment` as it runs: a position moved past one whole frame after another. */
  method ScanLoop(b: Bytes) returns (s: Scan)
    ensures s == ScanSegment(b)
  {
    hide ReadFrame, DecodePayload, FromLE, Crc32;
    if |b| < HEADER_LEN {
      return Scanned([], Torn(0));
    }
    if b[..4] != MAGIC || Crc32(b[..8]) != FromLE(b[8..12]) {
      return if |b| == HEADER_LEN then Scanned([], Torn(0)) else Refused(InvalidData);
    }
    if FromLE(b[4..8]) != VERSION {
      return Refused(Unsupported);
    }
    var pos, recs := HEADER_LEN, [];
    while true
      invariant HEADER_LEN <= pos <= |b|
      invariant Prepend(recs, ScanFrames(b[pos..], pos)) == ScanFrames(b[HEADER_LEN..], HEADER_LEN)
      decreases |b| - pos
    {
      if pos + 4 > |b| {
        NoFrameAt(b, pos);
        return Scanned(recs, if pos == |b| then Clean else Torn(pos));
      }
      var payloadLen := FromLE(b[pos..pos + 4]);
      if payloadLen < MIN_PAYLOAD {
        NoFrameAt(b, pos);
        return Scanned(recs, Torn(pos));
      }
      var total := 4 + payloadLen + 4;
      if pos + total > |b| {
        NoFrameAt(b, pos);
        return Scanned(recs, Torn(pos));
      }
      var payload := b[pos + 4..pos + 4 + payloadLen];
      FrameAt(b, pos, payloadLen);
      if Crc32(payload) != FromLE(b[pos + 4 + payloadLen..pos + total]) {
        return Scanned(recs, Torn(pos));
      }
      var r := DecodePayload(payload);
      if r.None? {
        return Refused(InvalidData);
      }
      PrependTwice(recs, r.value, ScanFrames(b[pos + total..], pos + total));
      recs, pos := recs + [r.value], pos + total;
    }
  }

  lemma NoFrameAt(b: Bytes, pos: nat)
    requires pos <= |b|
    requires pos + 4 > |b| || (var len := FromLE(b[pos..pos + 4]); len < MIN_PAYLOAD || pos + 8 + len > |b|)
    ensures ReadFrame(b[pos..]) == None
  {
    hide FromLE, Crc32;
    if pos + 4 <= |b| {
      assert b[pos..][..4] == b[pos..pos + 4];
    }
  }

  lemma FrameAt(b: Bytes, pos: nat, len: nat)
    requires pos + 8 + len <= |b| && len == FromLE(b[pos..pos + 4]) && len >= MIN_PAYLOAD
    ensures ReadFrame(b[pos..]) ==
      if Crc32(b[pos + 4..pos + 4 + len]) != FromLE(b[pos + 4 + len..pos + 8 + len]) then None
      else Some((b[pos + 4..pos + 4 + len], b[pos + 8 + len..]))
  {
    hide FromLE, Crc32;
    var rest := b[pos..];
    assert rest[..4] == b[pos..pos + 4];
    assert rest[4..4 + len] == b[pos + 4..pos + 4 + len];
    var after := rest[4 + len..];
    assert after[..4] == b[pos + 4 + len..pos + 8 + len];
    assert after[4..] == b[pos + 8 + len..];
  }

  lemma PrependTwice(recs: seq<Record>, r: Record, s: Scan)
    ensures Prepend(recs, Prepend([r], s)) == Prepend(recs + [r], s)
  {
    if s.Scanned? {
      assert recs + ([r] + s.recs) == recs + [r] + s.recs;
    }
  }

  // ---- what a scan sees in the log's own bytes ----

  lemma HeaderAccepted(rest: Bytes)
    ensures ScanSegment(Header() + rest) == ScanFrames(rest, HEADER_LEN)
  {
    hide U32, FromLE, Crc32, ScanFrames;
    var start := MAGIC + U32(VERSION);
    var crc := U32(Crc32(start));
    var b := Header() + rest;
    Halves(Header(), rest);
    Halves(start, crc);
    Halves(MAGIC, U32(VERSION));
    assert b[..8] == start && b[8..12] == crc;
    assert b[..4] == MAGIC && b[4..8] == U32(VERSION);
  }

  lemma ReadFrameOf(payload: Bytes, rest: Bytes)
    requires MIN_PAYLOAD <= |payload| <= MAX_PAYLOAD
    ensures ReadFrame(FramePayload(payload) + rest) == Some((payload, rest))
  {
    var crc := U32(Crc32(payload));
    Reassociate(Chunk(payload), crc, rest);
    ReadChunkOf(payload, crc + rest);
    Halves(crc, rest);
  }

  /** A frame whose checksum field does not match its payload reads as torn. */
  lemma ReadFrameDamaged(payload: Bytes, crc: nat, rest: Bytes)
    requires |payload| <= MAX_PAYLOAD && crc < U32_LIMIT && crc != Crc32(payload)
    ensures ReadFrame(Chunk(payload) + U32(crc) + rest) == None
  {
    Reassociate(Chunk(payload), U32(crc), rest);
    ReadChunkOf(payload, U32(crc) + rest);
    Halves(U32(crc), rest);
  }

  /** A proper prefix of a frame reads as torn: the length field alone gives it away. */
  lemma ReadFrameCut(payload: Bytes, n: nat)
    requires |payload| <= MAX_PAYLOAD && n < |payload| + 8
    ensures ReadFrame(FramePayload(payload)[..n]) == None
  {
    hide U32, FromLE, Crc32;
    var cut := FramePayload(payload)[..n];
    if n >= 4 {
      Halves(U32(|payload|), payload);
      assert cut[..4] == U32(|payload|);
    }
  }

  lemma ScanStep(b: Bytes, payload: Bytes, r: Record, rest: Bytes, at: nat)
    requires ReadFrame(b) == Some((payload, rest)) && DecodePayload(payload) == Some(r)
    ensures ScanFrames(b, at) == Prepend([r], ScanFrames(rest, at + |payload| + 8))
  {
    hide ReadFrame, DecodePayload, Prepend;
  }

  lemma ScanFirst(r: Record, rest: Bytes, at: nat)
    requires Framable(r)
    ensures ScanFrames(Frame(r) + rest, at) == Prepend([r], ScanFrames(rest, at + |Frame(r)|))
  {
    hide ReadFrame, DecodePayload, EncodePayload, FramePayload, ScanFrames, PayloadLen, Prepend;
    var payload := EncodePayload(r);
    PayloadLenBound(r.ops);
    ReadFrameOf(payload, rest);
    DecodeEncoded(r);
    ScanStep(FramePayload(payload) + rest, payload, r, rest, at);
  }

  lemma {:induction false} ScanWritten(recs: seq<Record>, rest: Bytes, at: nat)
    requires AllFramable(recs)
    ensures ScanFrames(Frames(recs) + rest, at) == Prepend(recs, ScanFrames(rest, at + |Frames(recs)|))
  {
    hide Frame, ScanFrames, Framable;
    if recs == [] {
      assert Frames(recs) + rest == rest;
      assert Prepend([], ScanFrames(rest, at)) == ScanFrames(rest, at);
    } else {
      var first, more := Frame(recs[0]), Frames(recs[1..]);
      Reassociate(first, more, rest);
      ScanFirst(recs[0], more + rest, at);
      ScanWritten(recs[1..], rest, at + |first|);
      var s := ScanFrames(rest, at + |first| + |more|);
      if s.Scanned? {
        assert [recs[0]] + (recs[1..] + s.recs) == recs + s.recs;
      }
    }
  }

  // ---- the scan of any bytes ----

  /** A whole frame at the front: a length of at least 25, that many bytes, and their checksum. */
  ghost predicate FrameIntact(b: Bytes) {
    && |b| >= 4 && FromLE(b[..4]) >= 25
    && var n := FromLE(b[..4]); 8 + n <= |b| && FromLE(b[4 + n..8 + n]) == Crc32(b[4..4 + n])
  }

  lemma IntactIsRead(b: Bytes)
    ensures FrameIntact(b) <==> ReadFrame(b).Some?
    ensures FrameIntact(b) ==> var n := FromLE(b[..4]); ReadFrame(b) == Some((b[4..4 + n], b[8 + n..]))
  {
    hide FromLE, Crc32;
    if |b| >= 4 && 8 + FromLE(b[..4]) <= |b| {
      var n := FromLE(b[..4]);
      assert b[4 + n..][..4] == b[4 + n..8 + n] && b[4 + n..][4..] == b[8 + n..];
    }
  }

  /** What the header alone decides: too short, damaged, or of another version. */
  lemma HeaderVerdicts(b: Bytes)
    ensures |b| < 12 ==> ScanSegment(b) == Scanned([], Torn(0))
    ensures |b| >= 12 ==>
              var intact := b[..4] == [0x4B, 0x53, 0x57, 0x4C] && FromLE(b[8..12]) == Crc32(b[..8]);
              && (!intact ==> ScanSegment(b) == if |b| == 12 then Scanned([], Torn(0)) else Refused(InvalidData))
              && (intact && FromLE(b[4..8]) != 1 ==> ScanSegment(b) == Refused(Unsupported))
              && (intact && FromLE(b[4..8]) == 1 ==> ScanSegment(b) == ScanFrames(b[12..], 12))
  {
  }

  /** And what decides the rest: frames that decode are reported one after another. The scan then ends cleanly
      at the end, torn where no whole frame follows, and refused where one follows that does not decode. */
  lemma {:induction false} FrameVerdicts(payloads: seq<Bytes>, recs: seq<Record>, rest: Bytes, at: nat)
    requires |payloads| == |recs|
    requires forall i :: 0 <= i < |recs| ==>
               25 <= |payloads[i]| <= 0xFFFF_FFFF && DecodePayload(payloads[i]) == Some(recs[i])
    ensures var s, n := ScanFrames(FrameAll(payloads) + rest, at), at + |FrameAll(payloads)|;
            && (rest == [] ==> s == Scanned(recs, Clean))
            && (rest != [] && !FrameIntact(rest) ==> s == Scanned(recs, Torn(n)))
            && (FrameIntact(rest) && DecodePayload(rest[4..4 + FromLE(rest[..4])]).None? ==> s == Refused(InvalidData))
    decreases |recs|
  {
    hide ReadFrame, DecodePayload, FramePayload, FromLE, Crc32, FrameIntact;
    if recs == [] {
      assert FrameAll(payloads) + rest == rest;
      IntactIsRead(rest);
    } else {
      var first, more := payloads[0], FrameAll(payloads[1..]);
      Reassociate(FramePayload(first), more, rest);
      ReadFrameOf(first, more + rest);
      ScanStep(FramePayload(first) + (more + rest), first, recs[0], more + rest, at);
      FrameVerdicts(payloads[1..], recs[1..], rest, at + |first| + 8);
    }
  }

  /** The frames of `payloads`, end to end. */
  function FrameAll(payloads: seq<Bytes>): Bytes
    requires forall i :: 0 <= i < |payloads| ==> |payloads[i]| <= 0xFFFF_FFFF
  {
    if payloads == [] then [] else FramePayload(payloads[0]) + FrameAll(payloads[1..])
  }

  /** There is no other case: any bytes are frames that decode, followed by one of the three. */
  lemma {:induction false} FramesOfAny(b: Bytes) returns (payloads: seq<Bytes>, recs: seq<Record>, rest: Bytes)
    ensures |payloads| == |recs|
    ensures forall i :: 0 <= i < |recs| ==>
              25 <= |payloads[i]| <= 0xFFFF_FFFF && DecodePayload(payloads[i]) == Some(recs[i])
    ensures b == FrameAll(payloads) + rest
    ensures rest == [] || !FrameIntact(rest) || DecodePayload(rest[4..4 + FromLE(rest[..4])]).None?
    decreases |b|
  {
    hide ReadFrame, DecodePayload, FromLE, Crc32;
    payloads, recs, rest := [], [], b;
    if FrameIntact(b) && DecodePayload(b[4..4 + FromLE(b[..4])]).Some? {
      var n := FromLE(b[..4]);
      var first := b[4..4 + n];
      FrameRewritten(b);
      payloads, recs, rest := FramesOfAny(b[8 + n..]);
      Reassociate(FramePayload(first), FrameAll(payloads), rest);
      payloads, recs := [first] + payloads, [DecodePayload(first).value] + recs;
    }
  }

  /** A frame is determined by its payload. */
  lemma FrameRewritten(b: Bytes)
    requires FrameIntact(b)
    ensures var n := FromLE(b[..4]);
            n <= 0xFFFF_FFFF && b == FramePayload(b[4..4 + n]) + b[8 + n..]
  {
    hide FromLE, LE, Crc32;
    var n := FromLE(b[..4]);
    LEOfFromLE(b[..4]);
    LEOfFromLE(b[4 + n..8 + n]);
    Limits();
    assert FramePayload(b[4..4 + n]) == b[..4] + b[4..4 + n] + b[4 + n..8 + n];
    assert b == b[..4] + b[4..4 + n] + b[4 + n..8 + n] + b[8 + n..];
  }

  // ---- every byte cut ----

  /** `k` is how many of `recs` lie wholly inside the first `n` bytes of their frames. */
  predicate WhollyInside(recs: seq<Record>, n: nat, k: nat)
    requires AllFramable(recs)
  {
    && k <= |recs|
    && |Frames(recs[..k])| <= n
    && (k < |recs| ==> n < |Frames(recs[..k + 1])|)
  }

  lemma {:induction false} FramesConcat(a: seq<Record>, b: seq<Record>)
    requires AllFramable(a) && AllFramable(b)
    ensures AllFramable(a + b) && Frames(a + b) == Frames(a) + Frames(b)
  {
    hide Frame, Framable, Frames, PayloadLen;
    if a == [] {
      assert a + b == b;
      NoFrames();
      assert Frames(a) + Frames(b) == Frames(b);
    } else {
      FramesConcat(a[1..], b);
      FirstOfBoth(a, b);
      FramesFirst(a);
      FramesFirst(a + b);
      Reassociate(Frame(a[0]), Frames(a[1..]), Frames(b));
    }
  }

  lemma NoFrames()
    ensures Frames([]) == []
  {
  }

  lemma FramesFirst(recs: seq<Record>)
    requires recs != [] && AllFramable(recs)
    ensures Frames(recs) == Frame(recs[0]) + Frames(recs[1..])
  {
  }

  lemma FirstOfBoth<T>(a: seq<T>, b: seq<T>)
    requires a != []
    ensures (a + b)[0] == a[0] && (a + b)[1..] == a[1..] + b
  {
  }

  lemma FrameOne(r: Record)
    requires Framable(r)
    ensures Frames([r]) == Frame(r)
  {
    hide Frame, Framable;
    assert Frames([r]) == Frame(r) + Frames([]);
  }

  lemma FrameNext(recs: seq<Record>, k: nat)
    requires AllFramable(recs) && k < |recs|
    ensures Frames(recs[..k + 1]) == Frames(recs[..k]) + Frame(recs[k])
    ensures Frames(recs) == Frames(recs[..k]) + (Frame(recs[k]) + Frames(recs[k + 1..]))
  {
    hide Frame, Framable, Frames;
    FrameOne(recs[k]);
    Around(recs, k);
    FramesConcat(recs[..k], [recs[k]]);
    FramesConcat(recs[..k + 1], recs[k + 1..]);
    Reassociate(Frames(recs[..k]), Frame(recs[k]), Frames(recs[k + 1..]));
  }

  /** A cut segment's bytes: the whole frames, then a proper prefix of the next one. */
  lemma CutBytes(recs: seq<Record>, n: nat, k: nat) returns (rest: Bytes)
    requires AllFramable(recs) && n <= |Frames(recs)| && WhollyInside(recs, n, k)
    ensures Frames(recs)[..n] == Frames(recs[..k]) + rest
    ensures if k < |recs| then |rest| < |Frame(recs[k])| && rest == Frame(recs[k])[..|rest|] else rest == []
  {
    hide Frame, Framable, Frames;
    if k < |recs| {
      FrameNext(recs, k);
      rest := Frame(recs[k])[..n - |Frames(recs[..k])|];
      TakeInto(Frames(recs[..k]), Frame(recs[k]), Frames(recs[k + 1..]), n);
    } else {
      assert recs[..k] == recs;
      rest := [];
    }
  }

  lemma TakeInto<T>(a: seq<T>, b: seq<T>, c: seq<T>, n: nat)
    requires |a| <= n <= |a + b|
    ensures (a + (b + c))[..n] == a + b[..n - |a|]
  {
  }

  /** What a scan reports of the first `HEADER_LEN + n` bytes of a segment that held `recs`. */
  function CutScan(recs: seq<Record>, n: nat, k: nat): Scan
    requires AllFramable(recs) && k <= |recs|
  {
    var end := |Frames(recs[..k])|;
    Scanned(recs[..k], if n == end then Clean else Torn(HEADER_LEN + end))
  }

  lemma ScanCutFrame(r: Record, n: nat, at: nat)
    requires Framable(r) && n < |Frame(r)|
    ensures ScanFrames(Frame(r)[..n], at) == Scanned([], if n == 0 then Clean else Torn(at))
  {
    hide EncodePayload, FramePayload, ReadFrame, PayloadLen;
    ReadFrameCut(EncodePayload(r), n);
  }

  /**
   * Every byte cut is handled: the scan of a cut segment reports exactly the records wholly inside
   * the cut, and the offset where they end.
   */
  lemma EveryCut(recs: seq<Record>, n: nat, k: nat)
    requires AllFramable(recs) && n <= |Frames(recs)| && WhollyInside(recs, n, k)
    ensures ScanSegment(Segment(recs)[..HEADER_LEN + n]) == CutScan(recs, n, k)
  {
    hide Frame, Framable, Frames, ScanFrames, ScanSegment, Header;
    var whole, cut := Frames(recs[..k]), Frames(recs)[..n];
    assert Segment(recs)[..HEADER_LEN + n] == Header() + cut;
    HeaderAccepted(cut);
    var rest := CutBytes(recs, n, k);
    ScanWritten(recs[..k], rest, HEADER_LEN);
    if k < |recs| {
      ScanCutFrame(recs[k], |rest|, HEADER_LEN + |whole|);
    } else {
      ScanNothing(HEADER_LEN + |whole|);
    }
    assert recs[..k] + [] == recs[..k];
  }

  lemma ScanNothing(at: nat)
    ensures ScanFrames([], at) == Scanned([], Clean)
  {
  }

  /** A cut inside the header leaves no record and is torn from offset 0. */
  lemma EveryHeaderCut(recs: seq<Record>, n: nat)
    requires AllFramable(recs) && n < HEADER_LEN
    ensures ScanSegment(Segment(recs)[..n]) == Scanned([], Torn(0))
  {
  }

  // ---- repair ----

  /** `repair_tail`: the segment without its torn tail. */
  function RepairTail(b: Bytes): Option<Bytes> {
    var s := ScanSegment(b);
    if s.Refused? then None
    else if s.tail.Torn? then Some(b[..s.tail.at])
    else Some(b)
  }

  /** What `Wal::open` makes of the last segment: repaired, with a header if it lost its own. */
  function Resume(b: Bytes): Option<Bytes> {
    var repaired := RepairTail(b);
    if repaired == Some([]) then Some(Header()) else repaired
  }

  /**
   * A segment cut at any byte resumes as exactly the segment of the records wholly inside the cut,
   * and whatever is appended from then on is read back right after them, with no torn tail between.
   */
  lemma EveryCutResumes(recs: seq<Record>, n: nat, k: nat, more: seq<Record>)
    requires AllFramable(recs) && n <= |Frames(recs)| && WhollyInside(recs, n, k)
    requires AllFramable(more)
    ensures Resume(Segment(recs)[..HEADER_LEN + n]) == Some(Segment(recs[..k]))
    ensures ScanSegment(Segment(recs[..k]) + Frames(more)) == Scanned(recs[..k] + more, Clean)
  {
    hide Frame, Framable, Frames, ScanFrames, ScanSegment, Header;
    EveryCut(recs, n, k);
    var rest := CutBytes(recs, n, k);
    var whole, cut := Frames(recs[..k]), Segment(recs)[..HEADER_LEN + n];
    assert cut == Header() + (whole + rest);
    assert cut[..HEADER_LEN + |whole|] == Header() + whole;
    assert n == |whole| ==> cut == Header() + whole;
    Reassociate(Header(), whole, Frames(more));
    HeaderAccepted(whole + Frames(more));
    ScanWritten(recs[..k], Frames(more), HEADER_LEN);
    WholeSegmentIsClean(more, HEADER_LEN + |whole|);
  }

  lemma WholeSegmentIsClean(recs: seq<Record>, at: nat)
    requires AllFramable(recs)
    ensures ScanFrames(Frames(recs), at) == Scanned(recs, Clean)
  {
    hide Frame, Framable, Frames, ScanFrames;
    ScanWritten(recs, [], at);
    ScanNothing(at + |Frames(recs)|);
    assert Frames(recs) + [] == Frames(recs) && recs + [] == recs;
  }

  lemma EveryHeaderCutResumes(recs: seq<Record>, n: nat)
    requires AllFramable(recs) && n < HEADER_LEN
    ensures Resume(Segment(recs)[..n]) == Some(Segment([]))
  {
    hide Header;
    EveryHeaderCut(recs, n);
    assert Header() + Frames([]) == Header();
  }

  // ---- damage ----

  /**
   * Damage confined to four consecutive bytes of one record's payload stops the scan exactly at that
   * record, whatever follows it.
   */
  lemma PayloadDamageStopsScan(recs: seq<Record>, payload: Bytes, i: nat, j: nat, v: Bytes, rest: Bytes)
    requires AllFramable(recs) && |payload| <= MAX_PAYLOAD
    requires i <= j <= |payload| && j - i == |v| <= 4 && v != payload[i..j]
    ensures var damaged := payload[..i] + v + payload[j..];
      ScanSegment(Segment(recs) + (Chunk(damaged) + U32(Crc32(payload)) + rest)) ==
      Scanned(recs, Torn(|Segment(recs)|))
  {
    hide Frame, Framable, Frames, ScanSegment, Header, Crc32, Chunk, U32, ReadFrame;
    var damaged := payload[..i] + v + payload[j..];
    var tail := Chunk(damaged) + U32(Crc32(payload)) + rest;
    assert payload == payload[..i] + payload[i..j] + payload[j..];
    FourByteBurstDetected(payload[..i], payload[i..j], v, payload[j..]);
    ReadFrameDamaged(damaged, Crc32(payload), rest);
    Reassociate(Header(), Frames(recs), tail);
    HeaderAccepted(Frames(recs) + tail);
    ScanWritten(recs, tail, HEADER_LEN);
    assert recs + [] == recs;
  }
}
