/** Recovery of the durable engine: a checkpoint, then the log written since. */
module Replay {
  import opened Types
  import opened WalRecord
  import opened WalSegment
  import opened Histories

  datatype Snapshot = Snapshot(index: nat, data: Map)

  const TERM: nat := 1

  // ---- histories as snapshots and records ----

  function SnapshotOf(hist: seq<Commit>): Snapshot { Snapshot(|hist|, Fold(hist)) }

  /** The log records of a history. */
  function Records(hist: seq<Commit>): (recs: seq<Record>)
    ensures |recs| == |hist|
    ensures forall i :: 0 <= i < |recs| ==> recs[i] == Record(TERM, i + 1, hist[i])
  {
    seq(|hist|, i requires 0 <= i < |hist| => Record(TERM, i + 1, hist[i]))
  }

  // ---- the replay sink ----

  datatype Progress = Replaying(data: Map, last: nat, first: Option<nat>) | Broken

  /** One record of segment `num` handed to recovery, which started from a checkpoint at `base`. */
  function Sink(base: nat, p: Progress, num: nat, r: Record): Progress {
    if p.Broken? then Broken
    else if r.index <= p.last then if p.last == base then p else Broken
    else if r.index != p.last + 1 then Broken
    else Replaying(ApplyOps(r.ops, p.data, r.index), r.index, if p.first.None? then Some(num) else p.first)
  }

  datatype Tagged = Tagged(num: nat, rec: Record)

  function SinkAll(base: nat, p: Progress, recs: seq<Tagged>): Progress {
    if recs == [] then p
    else
      var r := recs[|recs| - 1];
      Sink(base, SinkAll(base, p, recs[..|recs| - 1]), r.num, r.rec)
  }

  function Tag(num: nat, recs: seq<Record>): (t: seq<Tagged>)
    ensures |t| == |recs|
    ensures forall i :: 0 <= i < |t| ==> t[i] == Tagged(num, recs[i])
  {
    seq(|recs|, i requires 0 <= i < |recs| => Tagged(num, recs[i]))
  }

  // ---- the replay of a directory ----

  datatype File = File(num: nat, bytes: Bytes)

  function ReplayFiles(base: nat, p: Progress, files: seq<File>): Progress
    decreases |files|
  {
    if files == [] then p
    else
      var s := ScanSegment(files[0].bytes);
      if s.Refused? || (s.tail.Torn? && |files| > 1) then Broken
      else ReplayFiles(base, SinkAll(base, p, Tag(files[0].num, s.recs)), files[1..])
  }

  /** `wal::replay` with the engine's sink, as it runs. */
  method ReplayLoop(base: Snapshot, files: seq<File>) returns (p: Progress)
    ensures p == ReplayFiles(base.index, Replaying(base.data, base.index, None), files)
  {
    hide ScanSegment, Sink, Fold;
    p := Replaying(base.data, base.index, None);
    ghost var start := p;
    var i := 0;
    while i < |files|
      invariant i <= |files|
      invariant ReplayFiles(base.index, p, files[i..]) == ReplayFiles(base.index, start, files)
    {
      assert files[i..][0] == files[i] && files[i..][1..] == files[i + 1..];
      var s := ScanLoop(files[i].bytes);
      if s.Refused? {
        return Broken;
      }
      var tagged := Tag(files[i].num, s.recs);
      ghost var before := p;
      var j := 0;
      while j < |tagged|
        invariant j <= |tagged|
        invariant p == SinkAll(base.index, before, tagged[..j])
      {
        assert tagged[..j + 1][..j] == tagged[..j];
        p := Sink(base.index, p, tagged[j].num, tagged[j].rec);
        j := j + 1;
      }
      assert tagged[..j] == tagged;
      if s.tail.Torn? && |files| - 1 - i > 0 {
        return Broken;
      }
      i := i + 1;
    }
  }

  // ---- what replay does with a log ----

  lemma {:induction false} SinkConcat(base: nat, p: Progress, a: seq<Tagged>, b: seq<Tagged>)
    ensures SinkAll(base, p, a + b) == SinkAll(base, SinkAll(base, p, a), b)
  {
    hide Sink;
    if b == [] {
      assert a + b == a;
    } else {
      var init := b[..|b| - 1];
      SinkConcat(base, p, a, init);
      assert (a + b)[..|a + b| - 1] == a + init;
    }
  }

  /** Records the checkpoint covers change nothing. */
  lemma {:induction false} SinkCovered(data: Map, base: nat, recs: seq<Tagged>)
    requires forall i :: 0 <= i < |recs| ==> recs[i].rec.index <= base
    ensures SinkAll(base, Replaying(data, base, None), recs) == Replaying(data, base, None)
  {
    if recs != [] {
      SinkCovered(data, base, recs[..|recs| - 1]);
    }
  }

  lemma FoldNext(hist: seq<Commit>, m: nat)
    requires m < |hist|
    ensures Fold(hist[..m + 1]) == ApplyOps(hist[m], Fold(hist[..m]), m + 1)
  {
    hide ApplyOps;
    assert hist[..m + 1][..m] == hist[..m];
  }

  /** Records that continue the checkpoint without a gap rebuild the history. */
  lemma {:induction false} SinkHistory(hist: seq<Commit>, base: nat, recs: seq<Tagged>)
    requires base + |recs| <= |hist|
    requires forall i :: 0 <= i < |recs| ==> recs[i].rec == Record(TERM, base + i + 1, hist[base + i])
    ensures SinkAll(base, Replaying(Fold(hist[..base]), base, None), recs) ==
      Replaying(Fold(hist[..base + |recs|]), base + |recs|, if recs == [] then None else Some(recs[0].num))
    ensures Leaves(hist[..base + |recs|], SinkAll(base, Replaying(Fold(hist[..base]), base, None), recs).data)
  {
    hide ApplyOps, Fold, Leaves;
    FoldLeaves(hist[..base + |recs|]);
    if recs != [] {
      var n := |recs| - 1;
      SinkHistory(hist, base, recs[..n]);
      FoldNext(hist, base + n);
    }
  }

  // ---- a directory's segments and the records they hold ----

  /** Every record of every segment, in order, with the segment's number. */
  function Log(nums: seq<nat>, held: seq<seq<Record>>): (t: seq<Tagged>)
    requires |nums| == |held|
  {
    if nums == [] then [] else Tag(nums[0], held[0]) + Log(nums[1..], held[1..])
  }

  /** `s` scans to `recs`; only a last segment may have a torn tail. */
  predicate Reads(b: Bytes, recs: seq<Record>, last: bool) {
    var s := ScanSegment(b);
    s.Scanned? && s.recs == recs && (s.tail.Torn? ==> last)
  }

  function Nums(files: seq<File>): (nums: seq<nat>)
    ensures |nums| == |files|
    ensures forall i :: 0 <= i < |files| ==> nums[i] == files[i].num
  {
    seq(|files|, i requires 0 <= i < |files| => files[i].num)
  }

  lemma {:induction false} ReplayReads(base: nat, p: Progress, files: seq<File>, held: seq<seq<Record>>)
    requires |held| == |files|
    requires forall i :: 0 <= i < |files| ==> Reads(files[i].bytes, held[i], i == |files| - 1)
    ensures ReplayFiles(base, p, files) == SinkAll(base, p, Log(Nums(files), held))
    decreases |files|
  {
    hide SinkAll, ScanSegment;
    if files == [] {
      SinkNothing(base, p);
    } else {
      assert Reads(files[0].bytes, held[0], |files| == 1);
      var first := Tag(files[0].num, held[0]);
      assert Nums(files)[1..] == Nums(files[1..]);
      forall i | 0 <= i < |files[1..]|
        ensures Reads(files[1..][i].bytes, held[1..][i], i == |files[1..]| - 1)
      {
        assert Reads(files[i + 1].bytes, held[i + 1], i + 1 == |files| - 1);
      }
      ReplayReads(base, SinkAll(base, p, first), files[1..], held[1..]);
      SinkConcat(base, p, first, Log(Nums(files[1..]), held[1..]));
    }
  }

  lemma SinkNothing(base: nat, p: Progress)
    ensures SinkAll(base, p, []) == p
  {
  }

  // ---- exactly which logs replay accepts ----

  /** Every segment scans, and only the last one may end torn. */
  ghost predicate Readable(files: seq<File>) {
    forall i :: 0 <= i < |files| ==>
      ScanSegment(files[i].bytes).Scanned? && (ScanSegment(files[i].bytes).tail.Torn? ==> i == |files| - 1)
  }

  /** What the segments hold. */
  function Held(files: seq<File>): (held: seq<seq<Record>>)
    ensures |held| == |files|
    ensures forall i :: 0 <= i < |files| ==>
              ScanSegment(files[i].bytes).Scanned? ==> held[i] == ScanSegment(files[i].bytes).recs
  {
    seq(|files|, i requires 0 <= i < |files| =>
      var s := ScanSegment(files[i].bytes); if s.Scanned? then s.recs else [])
  }

  /** From the `j`th on, the records continue a checkpoint at `base` one index after another; those before
      it are covered by the checkpoint. */
  ghost predicate Continues(recs: seq<Tagged>, base: nat, j: nat) {
    && j <= |recs|
    && (forall i :: 0 <= i < j ==> recs[i].rec.index <= base)
    && (forall i :: j <= i < |recs| ==> recs[i].rec.index == base + (i - j) + 1)
  }

  /** Records that continue the checkpoint are accepted. */
  lemma {:induction false} SinkAccepts(base: nat, data: Map, recs: seq<Tagged>, j: nat)
    requires Continues(recs, base, j)
    ensures var p := SinkAll(base, Replaying(data, base, None), recs);
            && p.Replaying? && p.last == base + |recs| - j
            && p.first == if j == |recs| then None else Some(recs[j].num)
  {
    hide ApplyOps;
    if recs != [] {
      var n := |recs| - 1;
      SinkAccepts(base, data, recs[..n], if j <= n then j else n);
    }
  }

  /** And no others are. */
  lemma {:induction false} SinkAccepted(base: nat, data: Map, recs: seq<Tagged>) returns (j: nat)
    requires SinkAll(base, Replaying(data, base, None), recs).Replaying?
    ensures Continues(recs, base, j)
  {
    hide ApplyOps;
    if recs == [] {
      j := 0;
    } else {
      var n := |recs| - 1;
      j := SinkAccepted(base, data, recs[..n]);
      SinkAccepts(base, data, recs[..n], j);
      if recs[n].rec.index <= base + n - j {
        j := n + 1;
      }
    }
  }

  lemma {:induction false} UnreadableIsRefused(base: nat, p: Progress, files: seq<File>)
    requires !Readable(files)
    ensures ReplayFiles(base, p, files).Broken?
    decreases |files|
  {
    hide ScanSegment, SinkAll;
    var s := ScanSegment(files[0].bytes);
    if s.Scanned? && (s.tail.Torn? ==> |files| == 1) {
      UnreadableIsRefused(base, SinkAll(base, p, Tag(files[0].num, s.recs)), files[1..]);
    }
  }

  /** Replay refuses a log unless every segment scans, only the last is torn, and the records, after those the
      checkpoint covers, follow it without a gap or a repeat. */
  lemma ReplayAcceptsExactly(base: nat, data: Map, files: seq<File>)
    ensures ReplayFiles(base, Replaying(data, base, None), files).Replaying? <==>
              Readable(files) && exists j: nat :: Continues(Log(Nums(files), Held(files)), base, j)
  {
    hide ScanSegment, SinkAll, ReplayFiles, Log, Continues;
    if Readable(files) {
      ReplayReads(base, Replaying(data, base, None), files, Held(files));
      var log := Log(Nums(files), Held(files));
      if SinkAll(base, Replaying(data, base, None), log).Replaying? {
        var j := SinkAccepted(base, data, log);
      }
      if j: nat :| Continues(log, base, j) {
        SinkAccepts(base, data, log, j);
      }
    } else {
      UnreadableIsRefused(base, Replaying(data, base, None), files);
    }
  }

  /** The records of consecutive segments, end to end. */
  function Flat(held: seq<seq<Record>>): seq<Record> {
    if held == [] then [] else held[0] + Flat(held[1..])
  }

  lemma {:induction false} LogIsFlat(nums: seq<nat>, held: seq<seq<Record>>)
    requires |nums| == |held|
    ensures |Log(nums, held)| == |Flat(held)|
    ensures forall i :: 0 <= i < |Flat(held)| ==> Log(nums, held)[i].rec == Flat(held)[i]
  {
    if nums != [] {
      LogIsFlat(nums[1..], held[1..]);
    }
  }

  /** The log holds the history past `floor` without a gap, after records at or below `floor`. */
  ghost predicate Holds(log: seq<Record>, hist: seq<Commit>, floor: nat) {
    && floor <= |hist|
    && |log| >= |hist| - floor
    && var j := |log| - (|hist| - floor);
      && (forall i :: 0 <= i < j ==> log[i].index <= floor)
      && (forall i :: j <= i < |log| ==> log[i] == Record(TERM, floor + i - j + 1, hist[floor + i - j]))
  }

  /** A log that holds a history past `floor` holds it past any later point. */
  lemma HoldsLater(log: seq<Record>, hist: seq<Commit>, floor: nat, later: nat)
    requires Holds(log, hist, floor) && floor <= later <= |hist|
    ensures Holds(log, hist, later)
  {
  }

  /** The segment of the first record past `base`. */
  function FirstUncovered(log: seq<Tagged>, hist: seq<Commit>, base: nat): Option<nat>
    requires base <= |hist| && |log| >= |hist| - base
  {
    if base == |hist| then None else Some(log[|log| - (|hist| - base)].num)
  }

  /** From any checkpoint of the history that the log reaches back to, replay rebuilds the whole history. */
  lemma ReplayRecovers(base: nat, files: seq<File>, held: seq<seq<Record>>, hist: seq<Commit>, floor: nat)
    requires |held| == |files|
    requires forall i :: 0 <= i < |files| ==> Reads(files[i].bytes, held[i], i == |files| - 1)
    requires Holds(Flat(held), hist, floor)
    requires floor <= base <= |hist|
    ensures var log := Log(Nums(files), held);
      |log| >= |hist| - base &&
      ReplayFiles(base, Replaying(Fold(hist[..base]), base, None), files) ==
      Replaying(Fold(hist), |hist|, FirstUncovered(log, hist, base))
  {
    hide SinkAll, ReplayFiles, Reads, Log, Fold, Flat;
    var log := Log(Nums(files), held);
    var start := Replaying(Fold(hist[..base]), base, None);
    LogIsFlat(Nums(files), held);
    HoldsLater(Flat(held), hist, floor, base);
    var j := |log| - (|hist| - base);
    ReplayReads(base, start, files, held);
    assert log == log[..j] + log[j..];
    SinkConcat(base, start, log[..j], log[j..]);
    SinkCovered(Fold(hist[..base]), base, log[..j]);
    SinkHistory(hist, base, log[j..]);
    assert hist[..|hist|] == hist;
  }
}
