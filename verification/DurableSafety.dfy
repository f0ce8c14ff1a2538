/** What every step of the durable engine keeps, and why it makes recovery succeed. */
module DurableSafety {
  import opened Types
  import opened Codec
  import opened WalRecord
  import opened WalSegment
  import opened Histories
  import opened Replay
  import opened DurableStore

  // ---- segments ----

  /** A segment that is durable and holds exactly `recs`. */
  predicate Whole(s: Seg, recs: seq<Record>) {
    AllFramable(recs) && s.bytes == Segment(recs) && s.pending == []
  }

  /** A segment of `recs`, or an empty file still to be given its header. */
  predicate HeaderOr(b: Bytes, recs: seq<Record>)
    requires AllFramable(recs)
  {
    b == Segment(recs) || (b == [] && recs == [])
  }

  /**
   * The newest segment: `recs` are durable in it, and whatever else a crash may leave there is a byte
   * prefix of the frames of `extra` -- or nothing is, not even the header. What is unsynced starts where
   * `recs` end.
   */
  predicate Tip(s: Seg, recs: seq<Record>, extra: seq<Record>) {
    && AllFramable(recs) && AllFramable(extra)
    && View(s) <= Segment(recs) + Frames(extra)
    && (Segment(recs) <= s.bytes || recs == [])
    && (s.pending != [] ==> HeaderOr(s.bytes, recs))
  }

  predicate SegsOk(segs: seq<Seg>, held: seq<seq<Record>>, extra: seq<Record>) {
    && |held| == |segs|
    && (forall i {:trigger Whole(segs[i], held[i])} :: 0 <= i < |segs| - 1 ==> Whole(segs[i], held[i]))
    && (segs != [] ==> Tip(segs[|segs| - 1], held[|segs| - 1], extra))
  }

  predicate AtMost(recs: seq<Record>, n: nat) {
    forall i :: 0 <= i < |recs| ==> recs[i].index <= n
  }

  /** Unlinked segments hold nothing past `floor`. */
  predicate LimboOk(limbo: seq<Seg>, held: seq<seq<Record>>, floor: nat) {
    && |held| == |limbo|
    && forall i {:trigger Whole(limbo[i], held[i])} ::
      0 <= i < |limbo| ==> Whole(limbo[i], held[i]) && AtMost(held[i], floor)
  }

  predicate Sorted(segs: seq<Seg>) {
    forall i, j :: 0 <= i < j < |segs| ==> segs[i].num < segs[j].num
  }

  predicate Ordered(limbo: seq<Seg>, segs: seq<Seg>) {
    && Sorted(limbo) && Sorted(segs)
    && forall i, j :: 0 <= i < |limbo| && 0 <= j < |segs| ==> limbo[i].num < segs[j].num
  }

  /** Every segment below `boundary` holds only records at or below `n`. */
  predicate Covered(segs: seq<Seg>, held: seq<seq<Record>>, boundary: nat, n: nat)
    requires |held| == |segs|
  {
    forall i {:trigger held[i]} :: 0 <= i < |segs| && segs[i].num < boundary ==> AtMost(held[i], n)
  }

  // ---- checkpoints ----

  /** A checkpoint of the history, no older than `floor`. */
  ghost predicate Good(snap: Snapshot, hist: seq<Commit>, floor: nat) {
    floor <= snap.index <= |hist| && snap.data == Fold(hist[..snap.index])
  }

  function IndexOf(f: Ckpt): nat { if f.Intact? then f.snap.index else 0 }

  ghost predicate DatOk(f: Ckpt, hist: seq<Commit>, floor: nat) {
    f.Intact? ==> Good(f.snap, hist, floor)
  }

  ghost predicate PrevOk(f: Ckpt, hist: seq<Commit>, floor: nat) {
    !f.Damaged? && IndexOf(f) >= floor && (f.Intact? ==> Good(f.snap, hist, floor))
  }

  /** Whatever version of either checkpoint name a crash leaves, the log reaches back to it. */
  ghost predicate CkptsOk(dats: set<Ckpt>, prevs: set<Ckpt>, hist: seq<Commit>, floor: nat) {
    && (forall f :: f in dats ==> DatOk(f, hist, floor))
    && (forall f :: f in prevs ==> PrevOk(f, hist, floor))
    && (Damaged in dats ==> Absent !in prevs)
  }

  // ---- the disk, at every moment ----

  predicate Fits(hist: seq<Commit>) { CanFrame([], hist) }

  ghost predicate DiskInv(d: Disk, b: Book) {
    && Fits(b.hist + b.inflight)
    && SegsOk(d.segs, b.held, GroupRecords(b.hist, b.inflight))
    && Ordered(d.limbo, d.segs)
    && LimboOk(d.limbo, b.limboHeld, b.floor)
    && Holds(Flat(b.held), b.hist, b.floor)
    && d.dat in d.dats && d.prev in d.prevs
    && CkptsOk(d.dats, d.prevs, b.hist, b.floor)
    && (d.unsure ==> d.segs != [] && b.held[|d.segs| - 1] == [] && View(Last(d.segs)) <= Header())
  }

  // ---- framing ----

  lemma GroupFramable(hist: seq<Commit>, group: seq<Commit>)
    requires CanFrame(hist, group)
    ensures AllFramable(GroupRecords(hist, group))
  {
    hide CheckOps;
    forall i | 0 <= i < |group| ensures Framable(GroupRecords(hist, group)[i]) {
      assert CheckOps(group[i]);
    }
  }

  lemma FitsParts(hist: seq<Commit>, group: seq<Commit>)
    requires Fits(hist + group)
    ensures Fits(hist) && CanFrame(hist, group)
  {
    hide CheckOps;
    var all := hist + group;
    forall i | 0 <= i < |hist| ensures CheckOps(hist[i]) {
      assert hist[i] == all[i];
    }
    forall i | 0 <= i < |group| ensures CheckOps(group[i]) {
      assert group[i] == all[|hist| + i];
    }
  }

  lemma FitsJoin(hist: seq<Commit>, group: seq<Commit>)
    requires Fits(hist) && CanFrame(hist, group)
    ensures Fits(hist + group)
  {
    hide CheckOps;
    var all := hist + group;
    forall i | 0 <= i < |all| ensures CheckOps(all[i]) {
      assert all[i] == if i < |hist| then hist[i] else group[i - |hist|];
    }
  }

  // ---- scanning the newest segment ----

  lemma {:induction false} FramesGrow(recs: seq<Record>, a: nat, b: nat)
    requires AllFramable(recs) && a <= b <= |recs|
    ensures |Frames(recs[..a])| + (b - a) <= |Frames(recs[..b])|
    decreases b
  {
    hide Frame, Frames, Framable;
    if a < b {
      FramesGrow(recs, a, b - 1);
      FrameNext(recs, b - 1);
    }
  }

  lemma {:induction false} FindWhole(recs: seq<Record>, n: nat, m: nat) returns (k: nat)
    requires AllFramable(recs) && m <= |recs|
    requires |Frames(recs[..m])| <= n
    ensures m <= k && WhollyInside(recs, n, k)
    decreases |recs| - m
  {
    hide Frame, Frames, Framable;
    if m == |recs| || n < |Frames(recs[..m + 1])| {
      k := m;
    } else {
      k := FindWhole(recs, n, m + 1);
    }
  }

  /** What a scan of a settled newest segment finds, and what cutting its tail leaves. */
  ghost predicate TipReads(b: Bytes, recs: seq<Record>, extra: seq<Record>, k: nat)
    requires AllFramable(recs) && AllFramable(extra)
  {
    && k <= |extra|
    && var s := ScanSegment(b);
      && s.Scanned? && s.recs == recs + extra[..k]
      && (s.tail.Clean? ==> b == Segment(recs + extra[..k]))
      && (s.tail.Torn? ==>
            || b[..s.tail.at] == Segment(recs + extra[..k])
            || (s.tail.at == 0 && recs == [] && k == 0))
      && (s.tail.Torn? && s.tail.at > 0 ==> k < |extra|)
  }

  lemma CutReads(b: Bytes, recs: seq<Record>, extra: seq<Record>) returns (k: nat)
    requires AllFramable(recs) && AllFramable(extra)
    requires Segment(recs) <= b <= Segment(recs) + Frames(extra)
    ensures TipReads(b, recs, extra, k)
  {
    hide Frame, Frames, Framable, ScanSegment, Header;
    var all := recs + extra;
    FramesConcat(recs, extra);
    Reassociate(Header(), Frames(recs), Frames(extra));
    var n := |b| - HEADER_LEN;
    assert all[..|recs|] == recs;
    var m := FindWhole(all, n, |recs|);
    k := m - |recs|;
    assert all[..m] == recs + extra[..k];
    assert b == Segment(all)[..HEADER_LEN + n];
    EveryCut(all, n, m);
    CutLengths(all, n, m, b);
  }

  lemma CutLengths(all: seq<Record>, n: nat, m: nat, b: Bytes)
    requires AllFramable(all) && n <= |Frames(all)| && WhollyInside(all, n, m)
    requires b == Segment(all)[..HEADER_LEN + n]
    ensures |Segment(all[..m])| <= |b|
    ensures b[..|Segment(all[..m])|] == Segment(all[..m])
    ensures n == |Frames(all[..m])| ==> b == Segment(all[..m])
    ensures n != |Frames(all[..m])| ==> m < |all|
  {
    hide Frame, Frames, Framable, Header;
    var rest := CutBytes(all, n, m);
    var whole := Frames(all[..m]);
    assert b == Header() + (whole + rest);
    Reassociate(Header(), whole, rest);
    Halves(Header() + whole, rest);
  }

  lemma HeaderReads(b: Bytes, extra: seq<Record>)
    requires AllFramable(extra) && b <= Header()
    ensures TipReads(b, [], extra, 0)
  {
    hide Framable, ScanFrames, Header;
    assert [] + extra[..0] == [];
    assert Segment([]) == Header();
    if b == Header() {
      HeaderAccepted([]);
      assert Header() + [] == Header();
      ScanNothing(HEADER_LEN);
    }
  }

  lemma TipScans(s: Seg, recs: seq<Record>, extra: seq<Record>) returns (k: nat)
    requires Tip(s, recs, extra) && s.pending == []
    ensures TipReads(s.bytes, recs, extra, k)
  {
    hide TipReads, Frames, Header, Framable;
    assert View(s) == s.bytes;
    if Segment(recs) <= s.bytes {
      k := CutReads(s.bytes, recs, extra);
    } else {
      EmptySegment();
      assert recs == [] && s.bytes <= Header();
      HeaderReads(s.bytes, extra);
      k := 0;
    }
  }

  lemma EmptySegment()
    ensures AllFramable([]) && Segment([]) == Header()
  {
    hide Header;
    assert Header() + [] == Header();
  }

  lemma WholeReads(s: Seg, recs: seq<Record>)
    requires Whole(s, recs)
    ensures Reads(s.bytes, recs, false)
  {
    hide Frames, Framable, ScanFrames, ScanSegment, Header;
    HeaderAccepted(Frames(recs));
    WholeSegmentIsClean(recs, HEADER_LEN);
  }

  // ---- the log under extension ----

  lemma {:induction false} FlatConcat(a: seq<seq<Record>>, b: seq<seq<Record>>)
    ensures Flat(a + b) == Flat(a) + Flat(b)
  {
    if a == [] {
      assert a + b == b;
    } else {
      FlatConcat(a[1..], b);
      assert (a + b)[0] == a[0] && (a + b)[1..] == a[1..] + b;
      Reassociate(a[0], Flat(a[1..]), Flat(b));
    }
  }

  lemma FlatOne(recs: seq<Record>)
    ensures Flat([recs]) == recs
  {
    assert Flat([recs]) == recs + Flat([]);
  }

  lemma FlatExtend(held: seq<seq<Record>>, recs: seq<Record>)
    requires held != []
    ensures Flat(ExtendLast(held, recs)) == Flat(held) + recs
  {
    hide Flat;
    var init, last := held[..|held| - 1], held[|held| - 1];
    assert held == init + [last];
    FlatConcat(init, [last]);
    FlatConcat(init, [last + recs]);
    FlatOne(last);
    FlatOne(last + recs);
    Reassociate(Flat(init), last, recs);
  }

  lemma HoldsMore(log: seq<Record>, hist: seq<Commit>, floor: nat, group: seq<Commit>)
    requires Holds(log, hist, floor)
    ensures Holds(log + GroupRecords(hist, group), hist + group, floor)
  {
  }

  // ---- recovery ----

  /** Recovery finds the first `k` commits of the group in flight. */
  ghost predicate Salvages(d: Disk, b: Book, k: nat)
    requires DiskInv(d, b)
  {
    && k <= |b.inflight|
    && (d.segs == [] ==> k == 0)
    && (d.segs != [] ==>
          Tip(Last(d.segs), b.held[|d.segs| - 1], GroupRecords(b.hist, b.inflight)) &&
          TipReads(Last(d.segs).bytes, b.held[|d.segs| - 1], GroupRecords(b.hist, b.inflight), k))
  }

  lemma FindSalvage(d: Disk, b: Book) returns (k: nat)
    requires DiskInv(d, b) && Settled(d)
    ensures Salvages(d, b, k)
  {
    hide ScanSegment, Segment, Tip, Flat, Fits, CkptsOk;
    if d.segs == [] {
      k := 0;
    } else {
      k := TipScans(Last(d.segs), b.held[|d.segs| - 1], GroupRecords(b.hist, b.inflight));
    }
  }

  function HeldWith(b: Book, k: nat): seq<seq<Record>>
    requires k <= |b.inflight|
  {
    ExtendLast(b.held, GroupRecords(b.hist, b.inflight[..k]))
  }

  lemma SalvagedReads(d: Disk, b: Book, k: nat)
    requires DiskInv(d, b) && Settled(d) && Salvages(d, b, k)
    ensures |HeldWith(b, k)| == |d.segs|
    ensures forall i :: 0 <= i < |d.segs| ==>
      Reads(Files(d.segs)[i].bytes, HeldWith(b, k)[i], i == |d.segs| - 1)
  {
    hide Flat, Fits, CkptsOk, Tip, Holds, ScanSegment, AllFramable, Segment;
    var l := |d.segs| - 1;
    forall i | 0 <= i < |d.segs|
      ensures Reads(Files(d.segs)[i].bytes, HeldWith(b, k)[i], i == l)
    {
      if i < l {
        assert Whole(d.segs[i], b.held[i]);
        WholeReads(d.segs[i], b.held[i]);
      } else {
        assert GroupRecords(b.hist, b.inflight)[..k] == GroupRecords(b.hist, b.inflight[..k]);
      }
    }
  }

  lemma SalvagedHolds(d: Disk, b: Book, k: nat)
    requires DiskInv(d, b) && Salvages(d, b, k)
    ensures Holds(Flat(HeldWith(b, k)), b.hist + b.inflight[..k], b.floor)
  {
    hide Flat, Fits, CkptsOk, Tip, TipReads, Holds;
    if d.segs == [] {
      assert b.hist + b.inflight[..k] == b.hist;
    } else {
      FlatExtend(b.held, GroupRecords(b.hist, b.inflight[..k]));
      HoldsMore(Flat(b.held), b.hist, b.floor, b.inflight[..k]);
    }
  }

  lemma PrefixOfLonger(hist: seq<Commit>, more: seq<Commit>, n: nat)
    requires n <= |hist|
    ensures (hist + more)[..n] == hist[..n]
  {
  }

  /** From whichever intact checkpoint recovery starts, it ends in the same state. */
  lemma ReplayFromAny(d: Disk, b: Book, k: nat, base: Snapshot)
    requires DiskInv(d, b) && Settled(d) && Salvages(d, b, k) && Good(base, b.hist, b.floor)
    ensures var h := b.hist + b.inflight[..k];
      var log := Log(Nums(Files(d.segs)), HeldWith(b, k));
      |HeldWith(b, k)| == |d.segs| && |log| >= |h| - base.index &&
      ReplayFrom(base, d.segs) == Replaying(Fold(h), |h|, FirstUncovered(log, h, base.index))
  {
    hide Flat, Fits, CkptsOk, Tip, TipReads, Holds, HeldWith, Fold, Log, ReplayFiles, Reads, SegsOk;
    var h := b.hist + b.inflight[..k];
    SalvagedReads(d, b, k);
    SalvagedHolds(d, b, k);
    PrefixOfLonger(b.hist, b.inflight[..k], base.index);
    ReplayRecovers(base.index, Files(d.segs), HeldWith(b, k), h, b.floor);
  }

  /** The checkpoint recovery loads is one of the history's, and the log reaches back to it. */
  lemma LoadSucceeds(d: Disk, b: Book)
    requires d.dat in d.dats && d.prev in d.prevs && CkptsOk(d.dats, d.prevs, b.hist, b.floor)
    ensures Load(d.dat, d.prev).Loaded? && Good(Load(d.dat, d.prev).snap, b.hist, b.floor)
    ensures Load(d.dat, d.prev).latestDamaged <==> d.dat.Damaged?
  {
    assert DatOk(d.dat, b.hist, b.floor) && PrevOk(d.prev, b.hist, b.floor);
    assert b.hist[..0] == [];
  }

  lemma RecoverSucceeds(d: Disk, b: Book, k: nat)
    requires DiskInv(d, b) && Settled(d) && Salvages(d, b, k)
    ensures var base := Load(d.dat, d.prev);
      var h := b.hist + b.inflight[..k];
      var log := Log(Nums(Files(d.segs)), HeldWith(b, k));
      base.Loaded? && Good(base.snap, b.hist, b.floor) &&
      |HeldWith(b, k)| == |d.segs| && |log| >= |h| - base.snap.index &&
      Recover(d) == Recovered(SnapshotOf(h), FirstUncovered(log, h, base.snap.index), d.dat.Damaged?)
  {
    hide SegsOk, Flat, Fits, Salvages, Holds, HeldWith, Fold, Log, ReplayFrom, Ordered, LimboOk, Good, Load, CkptsOk;
    LoadSucceeds(d, b);
    ReplayFromAny(d, b, k, Load(d.dat, d.prev).snap);
  }
}
