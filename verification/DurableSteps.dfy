/** Rotations, checkpoints, crashes and recovery keep the durable engine's invariant. */
module DurableSteps {
  import opened Codec
  import opened WalRecord
  import opened WalSegment
  import opened Histories
  import opened Replay
  import opened DurableStore
  import opened DurableSafety
  import opened DurableInvariant

  // ---- syncing the directory ----

  lemma CkptsFewer(dats: set<Ckpt>, prevs: set<Ckpt>, hist: seq<Commit>, floor: nat, dat: Ckpt, prev: Ckpt)
    requires CkptsOk(dats, prevs, hist, floor) && dat in dats && prev in prevs
    ensures CkptsOk({dat}, {prev}, hist, floor)
  {
    hide DatOk, PrevOk;
  }

  lemma OrderedFewer(limbo: seq<Seg>, segs: seq<Seg>)
    requires Ordered(limbo, segs)
    ensures Ordered([], segs)
  {
  }

  lemma SyncDirKeeps(d: Disk, b: Book)
    requires DiskInv(d, b)
    ensures DiskInv(SyncDir(d), b.(limboHeld := []))
  {
    hide SegsOk, Fits, Flat, Holds, CkptsOk, Ordered;
    CkptsFewer(d.dats, d.prevs, b.hist, b.floor, d.dat, d.prev);
    OrderedFewer(d.limbo, d.segs);
  }

  // ---- rotation ----

  lemma TipOfHeader(s: Seg, extra: seq<Record>)
    requires AllFramable(extra) && View(s) <= Header() && (s.pending == [] || s.bytes == [])
    ensures Tip(s, [], extra)
  {
    hide Frames, Segment, Header;
    EmptySegment();
  }

  lemma OrderedAdd(limbo: seq<Seg>, segs: seq<Seg>, s: Seg)
    requires Ordered(limbo, segs) && segs != [] && Last(segs).num < s.num
    ensures Ordered(limbo, segs + [s])
  {
  }

  lemma SegsOkAdd(segs: seq<Seg>, held: seq<seq<Record>>, extra: seq<Record>, s: Seg)
    requires SegsOk(segs, held, extra) && segs != [] && Whole(Last(segs), held[|segs| - 1]) && Tip(s, [], extra)
    ensures SegsOk(segs + [s], held + [[]], extra)
  {
    hide Whole, Tip;
    forall i | 0 <= i < |segs| ensures Whole((segs + [s])[i], (held + [[]])[i]) {
      if i < |segs| - 1 { assert Whole(segs[i], held[i]); }
    }
  }

  lemma CoveredAdd(segs: seq<Seg>, held: seq<seq<Record>>, s: Seg, boundary: nat, n: nat)
    requires |held| == |segs| && Covered(segs, held, boundary, n)
    ensures Covered(segs + [s], held + [[]], boundary, n)
  {
    forall i | 0 <= i < |segs + [s]| && (segs + [s])[i].num < boundary ensures AtMost((held + [[]])[i], n) {
      if i < |segs| { assert AtMost(held[i], n); }
    }
  }

  lemma PhaseAdd(d: Disk, b: Book, m: Mode, s: Seg, d': Disk, b': Book, m': Mode)
    requires m.Up? && |b.held| == |d.segs| && PhaseOk(d, b, m)
    requires d'.segs == d.segs + [s] && b'.held == b.held + [[]] && d'.dat == d.dat && d'.prev == d.prev
    requires b'.hist == b.hist && b'.floor == b.floor && b'.ret == b.ret
    requires m'.Up? && m'.cur == m.cur && m'.damaged == m.damaged && (m'.phase == m.phase || m'.phase.Resting?)
    requires m.append.Quiet? ==> m'.append.Quiet?
    ensures PhaseOk(d', b', m')
  {
    hide Covered, Good;
    match m.phase {
      case Pinned(snap, boundary) => CoveredAdd(d.segs, b.held, s, boundary, snap.index);
      case Kept(snap, boundary) => CoveredAdd(d.segs, b.held, s, boundary, snap.index);
      case Published(snap, boundary) => CoveredAdd(d.segs, b.held, s, boundary, snap.index);
      case Reclaiming(covered, _) => CoveredAdd(d.segs, b.held, s, covered, b.floor);
      case _ =>
    }
  }

  lemma FlatAddEmpty(held: seq<seq<Record>>)
    ensures Flat(held + [[]]) == Flat(held)
  {
    hide Flat;
    FlatConcat(held, [[]]);
    FlatOne([]);
    assert Flat(held) + [] == Flat(held);
  }

  lemma AddSegmentDisk(d: Disk, b: Book, s: Seg, inflight: seq<Commit>)
    requires DiskInv(d, b) && d.segs != [] && Last(d.segs).num < s.num
    requires Whole(Last(d.segs), b.held[|d.segs| - 1])
    requires Fits(b.hist + inflight) && s.bytes == [] && s.pending == []
    ensures DiskInv(d.(segs := d.segs + [s], unsure := true), b.(held := b.held + [[]], inflight := inflight))
  {
    hide SegsOk, Fits, Flat, Holds, CkptsOk, Ordered, LimboOk, Whole, Tip, AllFramable, Header;
    var extra := GroupRecords(b.hist, inflight);
    FitsParts(b.hist, inflight);
    GroupFramable(b.hist, inflight);
    assert SegsOk(d.segs, b.held, extra) by { Reextra(d.segs, b.held, GroupRecords(b.hist, b.inflight), extra); }
    DiskLengths(d, b);
    TipOfHeader(s, extra);
    SegsOkAdd(d.segs, b.held, extra, s);
    OrderedAdd(d.limbo, d.segs, s);
    FlatAddEmpty(b.held);
  }

  /** A whole newest segment carries nothing in flight, so any group may come next. */
  lemma Reextra(segs: seq<Seg>, held: seq<seq<Record>>, extra: seq<Record>, extra': seq<Record>)
    requires SegsOk(segs, held, extra) && segs != [] && Whole(Last(segs), held[|segs| - 1]) && AllFramable(extra')
    ensures SegsOk(segs, held, extra')
  {
    hide Frames, Segment, AllFramable;
    TipOfFrames(Last(segs), held[|segs| - 1], extra');
  }

  lemma WholeWhenFlushed(d: Disk, b: Book, m: Mode)
    requires m.Up? && UpInv(d, b, m) && m.rotation.Flushed?
    ensures Whole(Last(d.segs), b.held[|d.segs| - 1]) && Last(d.segs).num == m.cur && !d.unsure
    ensures b.soft == 0 && Softs(b) == []
  {
    hide DiskInv, PhaseOk, Framable, Segment, Frames, Covered;
    DiskLengths(d, b);
    NoSofts(b);
    NoFrames();
    assert Last(d.segs).bytes + [] == Last(d.segs).bytes;
    assert Segment(b.held[|d.segs| - 1]) + [] == Segment(b.held[|d.segs| - 1]);
  }

  lemma NotPoisoned(d: Disk, b: Book, m: Mode)
    requires m.Up? && UpInv(d, b, m) && !m.rotation.Still?
    ensures !m.poisoned && Idle(m.append)
  {
    hide DiskInv, PhaseOk, AllFramable, Segment, Frames, Covered, AppendOk, Softs;
    DiskLengths(d, b);
  }

  lemma SplitFlight(b: Book)
    ensures |Softs(b)| <= |b.inflight| && b.inflight == Softs(b) + b.inflight[|Softs(b)|..]
  {
  }

  /** The old segment synced: whatever was served is durable. */
  lemma SyncOldKeeps(d: Disk, b: Book, m: Mode)
    requires m.Up? && UpInv(d, b, m) && m.rotation.Wanted?
    ensures UpInv(d.(segs := SyncLast(d.segs)), Firm(b, b.inflight[|Softs(b)|..]), m.(rotation := Flushed))
  {
    hide Tip, Segment, Frames, CheckOps, DiskInv, PhaseOk, AllFramable, Covered, SetLast, Fits, View, CanFrame,
         ExtendLast, Firm, Softs;
    DiskTip(d, b);
    NotPoisoned(d, b, m);
    SplitFlight(b);
    var l, recs, group := Last(d.segs), b.held[|d.segs| - 1], b.inflight[|Softs(b)|..];
    var l' := Seg(l.num, View(l), []);
    Flight(b, group);
    EmptySegment();
    FramesPrefix(recs, SoftRecords(b), []);
    FirmTip(l', recs + SoftRecords(b), GroupRecords(Served(b), group));
    SetLastLength(d.segs, l');
    FirmLast(b, group);
    RotatingIsQuiet(d, b, m);
    FlushedPlace(d.(segs := SetLast(d.segs, l')), Firm(b, group), m.(rotation := Flushed));
    FirmStep(d, b, m, l', group, m.(rotation := Flushed));
  }

  lemma FlushedPlace(d: Disk, b: Book, m: Mode)
    requires m.Up? && |b.held| == |d.segs| && d.segs != [] && !d.unsure && Last(d.segs).num == m.cur
    requires m.rotation.Flushed? && !m.poisoned && Idle(m.append)
    requires b.soft == 0 && b.inflight == if m.append.Quiet? then [] else m.append.group
    requires AllFramable(b.held[|d.segs| - 1]) && AllFramable(GroupRecords(b.hist, b.inflight))
    requires Last(d.segs).bytes == Segment(b.held[|d.segs| - 1]) && Last(d.segs).pending == []
    ensures PlaceOk(d, b, m)
  {
    hide Framable, Segment, Frames;
    NoSofts(b);
    NoFrames();
    var l := |d.segs| - 1;
    assert Segment(b.held[l]) + [] == Segment(b.held[l]) && View(d.segs[l]) == d.segs[l].bytes;
    assert forall g: seq<Commit> :: [] + g == g;
  }

  lemma CreateNextKeeps(d: Disk, b: Book, m: Mode, s: Seg)
    requires m.Up? && UpInv(d, b, m) && m.rotation.Flushed? && s == Seg(m.cur + 1, [], [])
    ensures UpInv(d.(segs := d.segs + [s], unsure := true), b.(held := b.held + [[]]), m.(rotation := Created))
  {
    hide DiskInv, PhaseOk, AllFramable, Segment, Frames, Header, Covered, Whole, Fits, Softs, AppendOk;
    var d', b', m' := d.(segs := d.segs + [s], unsure := true), b.(held := b.held + [[]]), m.(rotation := Created);
    NotPoisoned(d, b, m);
    WholeWhenFlushed(d, b, m);
    DiskTip(d, b);
    AddSegmentDisk(d, b, s, b.inflight);
    CoveredAdd(d.segs, b.held, s, m.boundary, b.ret);
    PhaseAdd(d, b, m, s, d', b', m');
    SoftsSame(b, b');
  }

  lemma SoftsSame(b: Book, b': Book)
    requires b'.soft == b.soft && (b'.inflight == b.inflight || b'.inflight == Softs(b))
    ensures Softs(b') == Softs(b) && (b'.hist == b.hist ==> Served(b') == Served(b))
    ensures b.soft <= |b.inflight| ==> b'.soft <= |b'.inflight|
  {
  }

  /** A failed creation that left the file behind: the log is poisoned. */
  lemma FailCreateKeeps(d: Disk, b: Book, m: Mode, s: Seg, m': Mode)
    requires m.Up? && UpInv(d, b, m) && m.rotation.Flushed? && s == Seg(m.cur + 1, [], [])
    requires m' == m.(rotation := Still, append := Quiet, poisoned := true,
                      phase := if m.phase.Rotating? then Resting else m.phase)
    ensures UpInv(d.(segs := d.segs + [s], unsure := true), b.(held := b.held + [[]], inflight := Softs(b)), m')
  {
    hide DiskInv, PhaseOk, AllFramable, Segment, Frames, Header, Covered, Whole, Fits, Softs, AppendOk;
    var d', b' := d.(segs := d.segs + [s], unsure := true), b.(held := b.held + [[]], inflight := Softs(b));
    NotPoisoned(d, b, m);
    WholeWhenFlushed(d, b, m);
    DiskLengths(d, b);
    FitsHist(d, b);
    NoGroup(b.hist);
    AddSegmentDisk(d, b, s, []);
    CoveredAdd(d.segs, b.held, s, m.boundary, b.ret);
    PhaseAdd(d, b, m, s, d', b', m');
    SoftsSame(b, b');
  }

  /** A rotation that ends with nothing left behind: appends go on in the current segment. */
  lemma AbortKeeps(d: Disk, b: Book, m: Mode, m': Mode)
    requires m.Up? && UpInv(d, b, m) && (m.rotation.Wanted? || m.rotation.Flushed?)
    requires m' == m.(rotation := Still, append := Quiet, phase := if m.phase.Rotating? then Resting else m.phase)
    ensures UpInv(d, b.(inflight := Softs(b)), m')
  {
    hide DiskInv, PhaseOk, AllFramable, Segment, Frames, Header, Covered, Fits, Tip, Softs, View, CanFrame;
    var b' := b.(inflight := Softs(b));
    NotPoisoned(d, b, m);
    DiskTip(d, b);
    SoftsSame(b, b');
    FitsSoft(b);
    TipOf(Last(d.segs), b.held[|d.segs| - 1], GroupRecords(b.hist, b.inflight), SoftRecords(b));
    ModeStep(d, b, m, b', m');
  }

  lemma FitsSoft(b: Book)
    requires Fits(b.hist + b.inflight) && b.soft <= |b.inflight|
    ensures Fits(Served(b)) && AllFramable(SoftRecords(b))
  {
    hide Fits, AllFramable, CanFrame;
    Flight(b, b.inflight[b.soft..]);
  }

  /** A rotation that leaves a newer segment beside the current one: the log is poisoned. */
  lemma PoisonKeeps(d: Disk, b: Book, m: Mode, m': Mode)
    requires m.Up? && UpInv(d, b, m) && (m.rotation.Created? || m.rotation.Headed? || m.rotation.Born?)
    requires m' == m.(rotation := Still, append := Quiet, poisoned := true,
                      phase := if m.phase.Rotating? then Resting else m.phase)
    ensures UpInv(d, b.(inflight := Softs(b)), m')
  {
    hide DiskInv, PhaseOk, AllFramable, Segment, Frames, Header, Covered, Fits, Tip, Softs, CanFrame;
    var b' := b.(inflight := Softs(b));
    NotPoisoned(d, b, m);
    DiskTip(d, b);
    SoftsSame(b, b');
    FitsSoft(b);
    assert View(Last(d.segs)) <= Header();
    TipOfHeader(Last(d.segs), SoftRecords(b));
    ModeStep(d, b, m, b', m');
  }

  lemma WriteNextHeaderKeeps(d: Disk, b: Book, m: Mode, n: nat)
    requires m.Up? && UpInv(d, b, m) && m.rotation.Created? && n <= HEADER_LEN
    ensures UpInv(d.(segs := WriteLast(d.segs, Header()[..n])), b, m.(rotation := Headed))
  {
    hide DiskInv, PhaseOk, AllFramable, Segment, Frames, Header, Covered, Fits, Tip, SetLast, Softs, AppendOk;
    var l := Last(d.segs);
    DiskLengths(d, b);
    NotPoisoned(d, b, m);
    assert l.pending + Header()[..n] == Header()[..n];
    NextStep(d, b, m, Seg(l.num, l.bytes, l.pending + Header()[..n]), Headed);
  }

  lemma SyncNextHeaderKeeps(d: Disk, b: Book, m: Mode)
    requires m.Up? && UpInv(d, b, m) && m.rotation.Headed? && Last(d.segs).pending == Header()
    ensures UpInv(d.(segs := SyncLast(d.segs)), b, m.(rotation := Born))
  {
    hide DiskInv, PhaseOk, AllFramable, Segment, Frames, Header, Covered, Fits, Tip, SetLast, Softs, AppendOk;
    var l := Last(d.segs);
    DiskLengths(d, b);
    NotPoisoned(d, b, m);
    assert View(l) == Header();
    NextStep(d, b, m, Seg(l.num, View(l), []), Born);
  }

  lemma NextStep(d: Disk, b: Book, m: Mode, l': Seg, r: Rotation)
    requires m.Up? && UpInv(d, b, m) && (m.rotation.Created? || m.rotation.Headed?) && (r.Headed? || r.Born?)
    requires l'.num == Last(d.segs).num && NextOk(l', r)
    ensures UpInv(d.(segs := SetLast(d.segs, l')), b, m.(rotation := r))
  {
    hide DiskInv, PhaseOk, AllFramable, Segment, Frames, Header, Covered, Fits, Tip, Softs, AppendOk, CanFrame;
    NotPoisoned(d, b, m);
    DiskTip(d, b);
    FitsHist(d, b);
    GroupFramable(b.hist, b.inflight);
    assert View(l') <= Header();
    TipOfHeader(l', GroupRecords(b.hist, b.inflight));
    RotatingIsQuiet(d, b, m);
    LastStep(d, b, m, l', b, m.(rotation := r));
  }

  // A half-born segment removed again.

  lemma OrderedFront(limbo: seq<Seg>, segs: seq<Seg>, n: nat)
    requires Ordered(limbo, segs) && n <= |segs|
    ensures Ordered([], segs[..n])
  {
  }

  lemma SegsOkFront(segs: seq<Seg>, held: seq<seq<Record>>, extra: seq<Record>, extra': seq<Record>)
    requires SegsOk(segs, held, extra) && |segs| > 1 && AllFramable(extra')
    ensures Whole(segs[|segs| - 2], held[|segs| - 2])
    ensures SegsOk(segs[..|segs| - 1], held[..|segs| - 1], extra')
  {
    hide Frames, Segment, AllFramable, Tip;
    var n := |segs| - 1;
    assert Whole(segs[n - 1], held[n - 1]);
    TipOfFrames(segs[n - 1], held[n - 1], extra');
    forall i | 0 <= i < n - 1 ensures Whole(segs[..n][i], held[..n][i]) {
      assert Whole(segs[i], held[i]);
    }
  }

  lemma CoveredFront(segs: seq<Seg>, held: seq<seq<Record>>, boundary: nat, n: nat, k: nat)
    requires |held| == |segs| && Covered(segs, held, boundary, n) && k <= |segs|
    ensures Covered(segs[..k], held[..k], boundary, n)
  {
    hide AtMost;
    forall i | 0 <= i < k && segs[..k][i].num < boundary ensures AtMost(held[..k][i], n) {
      assert AtMost(held[i], n);
    }
  }

  lemma FlatDropEmpty(held: seq<seq<Record>>)
    requires held != [] && held[|held| - 1] == []
    ensures Flat(held[..|held| - 1]) == Flat(held)
  {
    hide Flat;
    FlatAddEmpty(held[..|held| - 1]);
    assert held == held[..|held| - 1] + [[]];
  }

  lemma PhaseFront(d: Disk, b: Book, m: Mode, d': Disk, b': Book, m': Mode)
    requires m.Up? && |b.held| == |d.segs| && PhaseOk(d, b, m) && d.segs != []
    requires d'.segs == d.segs[..|d.segs| - 1] && b'.held == b.held[..|d.segs| - 1]
    requires d'.dat == d.dat && d'.prev == d.prev
    requires b'.hist == b.hist && b'.floor == b.floor && b'.ret == b.ret
    requires m'.Up? && m'.cur == m.cur && m'.damaged == m.damaged
    requires m'.phase == if m.phase.Rotating? then Resting else m.phase
    ensures PhaseOk(d', b', m')
  {
    hide Covered, Good;
    var k := |d.segs| - 1;
    match m.phase {
      case Pinned(snap, boundary) => CoveredFront(d.segs, b.held, boundary, snap.index, k);
      case Kept(snap, boundary) => CoveredFront(d.segs, b.held, boundary, snap.index, k);
      case Published(snap, boundary) => CoveredFront(d.segs, b.held, boundary, snap.index, k);
      case Reclaiming(covered, _) => CoveredFront(d.segs, b.held, covered, b.floor, k);
      case _ =>
    }
  }

  lemma CleanUpDisk(d: Disk, b: Book)
    requires DiskInv(d, b) && |d.segs| > 1 && b.held[|d.segs| - 1] == []
    ensures DiskInv(SyncDir(d.(segs := d.segs[..|d.segs| - 1])),
                    b.(held := b.held[..|d.segs| - 1], limboHeld := [], inflight := []))
  {
    hide SegsOk, Fits, Flat, Holds, CkptsOk, Ordered, Whole, Tip, AllFramable;
    FitsHist(d, b);
    NoGroup(b.hist);
    DiskLengths(d, b);
    SegsOkFront(d.segs, b.held, GroupRecords(b.hist, b.inflight), GroupRecords(b.hist, []));
    OrderedFront(d.limbo, d.segs, |d.segs| - 1);
    FlatDropEmpty(b.held);
    CkptsFewer(d.dats, d.prevs, b.hist, b.floor, d.dat, d.prev);
  }

  lemma CleanUpKeeps(d: Disk, b: Book, m: Mode, d': Disk, b': Book, m': Mode)
    requires m.Up? && UpInv(d, b, m) && (m.rotation.Created? || m.rotation.Headed?)
    requires d' == SyncDir(d.(segs := d.segs[..|d.segs| - 1]))
    requires b.held != [] && b' == b.(held := b.held[..|b.held| - 1], limboHeld := [], inflight := Softs(b))
    requires m' == m.(rotation := Still, append := Quiet, phase := if m.phase.Rotating? then Resting else m.phase)
    ensures UpInv(d', b', m')
  {
    hide DiskInv, PhaseOk, Framable, Segment, Frames, Header, Covered, Fits, Tip, Softs;
    NotPoisoned(d, b, m);
    DiskLengths(d, b);
    NoSofts(b);
    CleanUpDisk(d, b);
    DiskLengths(d', b');
    FitsHist(d, b);
    NoGroup(b.hist);
    SoftsSame(b, b');
    CoveredFront(d.segs, b.held, m.boundary, b.ret, |d.segs| - 1);
    PhaseFront(d, b, m, d', b', m');
    SecondLastWhole(d, b);
    CkptMembers(d, b);
    NoFrames();
    var l := |d.segs| - 2;
    assert Segment(b.held[l]) + [] == Segment(b.held[l]) && d.segs[l].bytes + [] == d.segs[l].bytes;
  }

  lemma SecondLastWhole(d: Disk, b: Book)
    requires DiskInv(d, b) && |d.segs| > 1
    ensures Whole(d.segs[|d.segs| - 2], b.held[|d.segs| - 2])
  {
    hide Whole, Tip, Fits, Flat, Holds, CkptsOk, Ordered, LimboOk;
    assert SegsOk(d.segs, b.held, GroupRecords(b.hist, b.inflight));
  }

  lemma CkptMembers(d: Disk, b: Book)
    requires DiskInv(d, b)
    ensures d.dat in d.dats && d.prev in d.prevs
  {
  }

  // The switch to the new segment.

  /** No record in the log is past the history. */
  lemma LogWithinHistory(segs: seq<Seg>, held: seq<seq<Record>>, hist: seq<Commit>, floor: nat, boundary: nat)
    requires |held| == |segs| && Holds(Flat(held), hist, floor)
    ensures Covered(segs, held, boundary, |hist|)
  {
    hide Flat;
    forall i | 0 <= i < |segs| ensures AtMost(held[i], |hist|) {
      forall x | 0 <= x < |held[i]| ensures held[i][x].index <= |hist| {
        FlatContains(held, i, x);
      }
    }
  }

  lemma {:induction false} FlatContains(held: seq<seq<Record>>, i: nat, x: nat)
    requires i < |held| && x < |held[i]|
    ensures held[i][x] in Flat(held)
    decreases i
  {
    if i > 0 {
      FlatContains(held[1..], i - 1, x);
    }
  }

  lemma SyncNextKeeps(d: Disk, b: Book, m: Mode, m': Mode)
    requires m.Up? && UpInv(d, b, m) && m.rotation.Born?
    requires var next := Last(d.segs).num;
      m' == m.(rotation := Still, cur := next, phase := if m.phase.Rotating? then Pinned(m.snap, next) else m.phase)
    ensures UpInv(SyncDir(d), b.(limboHeld := []), m')
  {
    hide DiskInv, Framable, Segment, Frames, Header, Covered, Fits, Fold, Softs, CanFrame;
    var b' := b.(limboHeld := []);
    NotPoisoned(d, b, m);
    DiskLengths(d, b);
    CkptMembers(d, b);
    SyncDirKeeps(d, b);
    FitsHist(d, b);
    GroupFramable(b.hist, b.inflight);
    NoSofts(b);
    SoftsSame(b, b');
    EmptySegment();
    NoFrames();
    assert Header() + [] == Header();
    assert b.hist[..|b.hist|] == b.hist;
    LogHolds(d, b);
    LogWithinHistory(d.segs, b.held, b.hist, b.floor, Last(d.segs).num);
  }

  lemma LogHolds(d: Disk, b: Book)
    requires DiskInv(d, b)
    ensures Holds(Flat(b.held), b.hist, b.floor)
  {
    hide Holds, Flat, SegsOk, Fits;
  }

  lemma WantKeeps(d: Disk, b: Book, m: Mode, phase: Phase)
    requires m.Up? && UpInv(d, b, m) && !m.poisoned && m.rotation.Still? && Idle(m.append)
    requires phase == m.phase || (phase.Rotating? && m.append.Quiet?)
    ensures UpInv(d, b, m.(rotation := Wanted, phase := phase))
  {
    hide DiskInv, PhaseOk, AllFramable, Segment, Frames, Header, Covered, Fits, Tip, AppendOk, Softs;
    DiskLengths(d, b);
    RotatingIsQuiet(d, b, m);
    StayStep(d, b, m, m.(rotation := Wanted, phase := phase));
  }

  /** The steps before a new segment exists. */
  predicate Leading(t: Step) {
    t.RotateForAppend? || t.SyncOld? || t.FailSyncOld? || t.CreateNext? || t.FailCreate?
  }

  lemma LeadingKeeps(s: Sys, t: Step)
    requires Inv(s) && EnabledRotate(s, t) && Leading(t)
    ensures Inv(PerformRotate(s, t))
  {
    hide UpInv, OpenInv, DiskInv, SyncLast, GroupBytes, Overflows, CheckOps, Header, SyncDir, Firm, Softs, View;
    var d, b, m, m' := s.disk, s.book, s.mode, PerformRotate(s, t).mode;
    match t {
      case RotateForAppend =>
        ReadyFacts(d, b, m);
        WantKeeps(d, b, m, m.phase);
      case SyncOld => SyncOldKeeps(d, b, m);
      case FailSyncOld =>
        NotPoisoned(d, b, m);
        AbortKeeps(d, b, m, m');
      case CreateNext => CreateNextKeeps(d, b, m, Seg(m.cur + 1, [], []));
      case FailCreate(present) =>
        NotPoisoned(d, b, m);
        if present {
          FailCreateKeeps(d, b, m, Seg(m.cur + 1, [], []), m');
          SoftsSame(b, AddSegment(s).book);
        } else {
          AbortKeeps(d, b, m, m');
        }
    }
  }

  lemma TrailingKeeps(s: Sys, t: Step)
    requires Inv(s) && EnabledRotate(s, t) && !Leading(t)
    ensures Inv(PerformRotate(s, t))
  {
    hide UpInv, OpenInv, DiskInv, WriteLast, SyncLast, Header, SyncDir, Softs, View;
    var d, b, m, m' := s.disk, s.book, s.mode, PerformRotate(s, t).mode;
    match t {
      case WriteNextHeader(n) => WriteNextHeaderKeeps(d, b, m, n);
      case SyncNextHeader => SyncNextHeaderKeeps(d, b, m);
      case CleanUp =>
        UpLengths(d, b, m);
        NotPoisoned(d, b, m);
        SoftsSame(b, WithoutNext(s).book);
        CleanUpKeeps(d, b, m, PerformRotate(s, t).disk, PerformRotate(s, t).book, m');
      case FailCleanUp => PoisonKeeps(d, b, m, m');
      case SyncNext => SyncNextKeeps(d, b, m, m');
      case FailSyncNext => PoisonKeeps(d, b, m, m');
    }
  }

  lemma RotateKeeps(s: Sys, t: Step)
    requires Inv(s) && EnabledRotate(s, t)
    ensures Inv(PerformRotate(s, t))
  {
    hide Inv, EnabledRotate, PerformRotate;
    if Leading(t) {
      LeadingKeeps(s, t);
    } else {
      TrailingKeeps(s, t);
    }
  }

  lemma ReadyFacts(d: Disk, b: Book, m: Mode)
    requires m.Up? && UpInv(d, b, m) && m.append.Ready?
    ensures !m.poisoned
  {
    hide DiskInv, PhaseOk, AllFramable, Segment, Frames, Covered;
    DiskLengths(d, b);
  }

  lemma UpLengths(d: Disk, b: Book, m: Mode)
    requires m.Up? && UpInv(d, b, m)
    ensures |b.held| == |d.segs| && d.segs != []
  {
    hide DiskInv, PhaseOk, PlaceOk, Covered;
    DiskLengths(d, b);
  }

  // ---- checkpoints ----

  lemma CkptsMore(dats: set<Ckpt>, prevs: set<Ckpt>, hist: seq<Commit>, floor: nat, dat: Ckpt, prev: Ckpt)
    requires CkptsOk(dats, prevs, hist, floor)
    requires DatOk(dat, hist, floor) && !dat.Damaged? && PrevOk(prev, hist, floor)
    requires Damaged in dats ==> !prev.Absent?
    ensures CkptsOk(dats + {dat}, prevs + {prev}, hist, floor)
  {
    hide DatOk, PrevOk;
  }

  lemma CkptFiles(d: Disk, b: Book)
    requires DiskInv(d, b)
    ensures d.dat in d.dats && d.prev in d.prevs && CkptsOk(d.dats, d.prevs, b.hist, b.floor)
  {
    hide Holds, Flat, SegsOk, Fits, CkptsOk;
  }

  /** Changing only the checkpoint files leaves the log as it was. */
  lemma CkptsChange(d: Disk, b: Book, d': Disk)
    requires DiskInv(d, b) && d' == d.(dat := d'.dat, prev := d'.prev, dats := d'.dats, prevs := d'.prevs)
    requires d'.dat in d'.dats && d'.prev in d'.prevs && CkptsOk(d'.dats, d'.prevs, b.hist, b.floor)
    ensures DiskInv(d', b)
  {
    hide Holds, Flat, SegsOk, Fits, CkptsOk, Ordered, LimboOk;
  }

  lemma PlaceSame(d: Disk, b: Book, m: Mode, d': Disk, b': Book, m': Mode)
    requires m.Up? && |b.held| == |d.segs| && d.segs != [] && PlaceOk(d, b, m)
    requires d'.segs == d.segs && (d.unsure == d'.unsure || !d'.unsure)
    requires b'.held == b.held && b'.hist == b.hist && b'.inflight == b.inflight && b'.soft == b.soft
    requires m'.Up? && m'.cur == m.cur && m'.append == m.append && m'.rotation == m.rotation
    requires m'.poisoned == m.poisoned
    ensures PlaceOk(d', b', m')
  {
    hide AllFramable, Segment, Frames, Header;
  }

  lemma KeepKeeps(d: Disk, b: Book, m: Mode, d': Disk, m': Mode)
    requires m.Up? && UpInv(d, b, m) && m.phase.Pinned? && !Unnoticed(d, m.damaged)
    requires m' == m.(phase := Kept(m.phase.snap, m.phase.boundary))
    requires d' == if m.damaged || d.dat.Absent? then d
      else d.(prev := d.dat, prevs := d.prevs + {d.dat}, dat := Absent, dats := d.dats + {Absent})
    ensures UpInv(d', b, m')
  {
    hide DiskInv, PlaceOk, Covered, Good, CkptsOk;
    DiskLengths(d, b);
    CkptFiles(d, b);
    if !(m.damaged || d.dat.Absent?) {
      RetainOk(d, b);
      CkptsMore(d.dats, d.prevs, b.hist, b.floor, Absent, d.dat);
      CkptsChange(d, b, d');
    }
    PlaceSame(d, b, m, d', b, m');
  }

  lemma RetainOk(d: Disk, b: Book)
    requires d.dat in d.dats && Damaged !in d.dats && !d.dat.Absent? && CkptsOk(d.dats, d.prevs, b.hist, b.floor)
    ensures d.dat.Intact? && PrevOk(d.dat, b.hist, b.floor)
  {
    assert DatOk(d.dat, b.hist, b.floor);
  }

  lemma ReplaceKeeps(d: Disk, b: Book, m: Mode, d': Disk, m': Mode)
    requires m.Up? && UpInv(d, b, m) && m.phase.Kept?
    requires m' == m.(phase := Published(m.phase.snap, m.phase.boundary))
    requires d' == d.(dat := Intact(m.phase.snap), dats := d.dats + {Intact(m.phase.snap)})
    ensures UpInv(d', b, m')
  {
    hide DiskInv, PlaceOk, Covered, CkptsOk, Good;
    DiskLengths(d, b);
    CkptFiles(d, b);
    GoodLower(m.phase.snap, b.hist, b.ret, b.floor);
    CkptsMoreDat(d.dats, d.prevs, b.hist, b.floor, Intact(m.phase.snap));
    CkptsChange(d, b, d');
    PlaceSame(d, b, m, d', b, m');
  }

  lemma GoodLower(snap: Snapshot, hist: seq<Commit>, floor: nat, lower: nat)
    requires Good(snap, hist, floor) && lower <= floor
    ensures Good(snap, hist, lower) && floor <= snap.index <= |hist|
  {
    hide Fold;
  }

  lemma CkptsMoreDat(dats: set<Ckpt>, prevs: set<Ckpt>, hist: seq<Commit>, floor: nat, dat: Ckpt)
    requires CkptsOk(dats, prevs, hist, floor) && DatOk(dat, hist, floor) && !dat.Damaged?
    ensures CkptsOk(dats + {dat}, prevs, hist, floor)
  {
    hide DatOk, PrevOk;
  }

  lemma CkptsSettle(d: Disk, b: Book, snap: Snapshot)
    requires CkptsOk(d.dats, d.prevs, b.hist, b.floor) && d.dat in d.dats && d.prev in d.prevs
    requires (d.dat == Intact(snap) || d.dat.Damaged?) && Good(snap, b.hist, b.ret) && b.ret <= IndexOf(d.prev)
    ensures CkptsOk({d.dat}, {d.prev}, b.hist, b.ret)
  {
    hide Fold;
    assert PrevOk(d.prev, b.hist, b.floor);
  }

  /** Once the new checkpoint is durable, the log need only reach back to the one it retained. */
  lemma SyncCkptDisk(d: Disk, b: Book, snap: Snapshot, b': Book)
    requires DiskInv(d, b) && (d.dat == Intact(snap) || d.dat.Damaged?) && Good(snap, b.hist, b.ret)
    requires b.floor <= b.ret <= IndexOf(d.prev)
    requires b' == b.(limboHeld := [], floor := b.ret, ret := snap.index)
    ensures DiskInv(SyncDir(d), b')
  {
    hide Flat, SegsOk, Fits, Holds, Ordered, Fold, CkptsOk;
    CkptsSettle(d, b, snap);
    HoldsLater(Flat(b.held), b.hist, b.floor, b.ret);
    OrderedFewer(d.limbo, d.segs);
  }

  lemma SyncCkptKeeps(d: Disk, b: Book, m: Mode, b': Book, m': Mode)
    requires m.Up? && UpInv(d, b, m) && m.phase.Published?
    requires b' == b.(limboHeld := [], floor := b.ret, ret := m.phase.snap.index)
    requires m' == m.(damaged := false, boundary := m.phase.boundary, phase := Reclaiming(m.boundary, false))
    ensures UpInv(SyncDir(d), b', m')
  {
    hide DiskInv, PlaceOk, Covered, Good;
    DiskLengths(d, b);
    GoodLower(m.phase.snap, b.hist, b.ret, b.ret);
    SyncCkptDisk(d, b, m.phase.snap, b');
    PlaceSame(d, b, m, SyncDir(d), b', m');
  }

  // Reclaiming the oldest segment.

  lemma CoveredAreSkipped(log: seq<Record>, hist: seq<Commit>, floor: nat, n: nat)
    requires Holds(log, hist, floor) && n <= |log| && (n > 0 ==> log[n - 1].index <= floor)
    ensures n <= |log| - (|hist| - floor)
  {
  }

  lemma HoldsSuffix(log: seq<Record>, hist: seq<Commit>, floor: nat, n: nat)
    requires Holds(log, hist, floor) && n <= |log| - (|hist| - floor)
    ensures Holds(log[n..], hist, floor)
  {
  }

  lemma HoldsDrop(first: seq<Record>, rest: seq<Record>, hist: seq<Commit>, floor: nat)
    requires Holds(first + rest, hist, floor) && AtMost(first, floor)
    ensures Holds(rest, hist, floor)
  {
    hide Holds;
    Halves(first, rest);
    CoveredAreSkipped(first + rest, hist, floor, |first|);
    HoldsSuffix(first + rest, hist, floor, |first|);
  }

  lemma OrderedReclaim(limbo: seq<Seg>, segs: seq<Seg>)
    requires Ordered(limbo, segs) && segs != []
    ensures Ordered(limbo + [segs[0]], segs[1..])
  {
  }

  lemma SegsOkBack(segs: seq<Seg>, held: seq<seq<Record>>, extra: seq<Record>)
    requires SegsOk(segs, held, extra) && |segs| > 1
    ensures SegsOk(segs[1..], held[1..], extra) && Whole(segs[0], held[0])
  {
    hide Whole, Tip;
    assert Whole(segs[0], held[0]);
    forall i | 0 <= i < |segs[1..]| - 1 ensures Whole(segs[1..][i], held[1..][i]) {
      assert Whole(segs[i + 1], held[i + 1]);
    }
  }

  lemma LimboMore(limbo: seq<Seg>, held: seq<seq<Record>>, floor: nat, s: Seg, recs: seq<Record>)
    requires LimboOk(limbo, held, floor) && Whole(s, recs) && AtMost(recs, floor)
    ensures LimboOk(limbo + [s], held + [recs], floor)
  {
    hide Whole, AtMost;
    forall i | 0 <= i < |limbo + [s]|
      ensures Whole((limbo + [s])[i], (held + [recs])[i]) && AtMost((held + [recs])[i], floor)
    {
      if i < |limbo| { assert Whole(limbo[i], held[i]); }
    }
  }

  lemma CoveredBack(segs: seq<Seg>, held: seq<seq<Record>>, boundary: nat, n: nat)
    requires |held| == |segs| && segs != [] && Covered(segs, held, boundary, n)
    ensures Covered(segs[1..], held[1..], boundary, n)
  {
    hide AtMost;
    forall i | 0 <= i < |segs[1..]| && segs[1..][i].num < boundary ensures AtMost(held[1..][i], n) {
      assert AtMost(held[i + 1], n);
    }
  }

  lemma ReclaimDisk(d: Disk, b: Book)
    requires DiskInv(d, b) && |d.segs| > 1 && AtMost(b.held[0], b.floor)
    ensures DiskInv(d.(segs := d.segs[1..], limbo := d.limbo + [d.segs[0]]),
                    b.(held := b.held[1..], limboHeld := b.limboHeld + [b.held[0]]))
  {
    hide SegsOk, Fits, Holds, CkptsOk, Ordered, Whole, Tip, AllFramable, LimboOk, AtMost;
    DiskLengths(d, b);
    SegsOkBack(d.segs, b.held, GroupRecords(b.hist, b.inflight));
    OrderedReclaim(d.limbo, d.segs);
    LimboMore(d.limbo, b.limboHeld, b.floor, d.segs[0], b.held[0]);
    HoldsDrop(b.held[0], Flat(b.held[1..]), b.hist, b.floor);
  }

  lemma PlaceBack(d: Disk, b: Book, m: Mode, d': Disk, b': Book, m': Mode)
    requires m.Up? && |b.held| == |d.segs| > 1 && PlaceOk(d, b, m)
    requires d.segs[0].num != m.cur
    requires d'.segs == d.segs[1..] && d'.unsure == d.unsure
    requires b'.held == b.held[1..] && b'.hist == b.hist && b'.inflight == b.inflight && b'.soft == b.soft
    requires m'.Up? && m'.cur == m.cur && m'.append == m.append && m'.rotation == m.rotation
    requires m'.poisoned == m.poisoned
    ensures PlaceOk(d', b', m')
  {
    hide AllFramable, Segment, Frames, Header;
  }

  lemma ReclaimKeeps(d: Disk, b: Book, m: Mode, d': Disk, b': Book, m': Mode)
    requires m.Up? && UpInv(d, b, m) && Reclaimable(d, m) && b.held != []
    requires d' == d.(segs := d.segs[1..], limbo := d.limbo + [d.segs[0]])
    requires b' == b.(held := b.held[1..], limboHeld := b.limboHeld + [b.held[0]])
    requires m' == m.(phase := Reclaiming(m.phase.covered, true))
    ensures UpInv(d', b', m')
  {
    hide DiskInv, PlaceOk, AtMost;
    DiskLengths(d, b);
    assert AtMost(b.held[0], b.floor);
    CurrentIsAbove(d, b, m);
    ReclaimDisk(d, b);
    DiskLengths(d', b');
    CoveredBack(d.segs, b.held, m.boundary, b.ret);
    CoveredBack(d.segs, b.held, m.phase.covered, b.floor);
    PlaceBack(d, b, m, d', b', m');
  }

  lemma CurrentIsAbove(d: Disk, b: Book, m: Mode)
    requires m.Up? && |b.held| == |d.segs| && d.segs != [] && PlaceOk(d, b, m) && d.segs[0].num < m.cur
    ensures |d.segs| > 1
  {
    hide AllFramable, Segment, Frames, Header;
  }

  lemma RestKeeps(d: Disk, b: Book, m: Mode)
    requires m.Up? && UpInv(d, b, m)
    ensures UpInv(d, b, m.(phase := Resting))
  {
    hide DiskInv, PlaceOk, Covered, PhaseOk, RetInv;
    DiskLengths(d, b);
    PlaceSame(d, b, m, d, b, m.(phase := Resting));
    Rests(d, b, m);
  }

  lemma FinishReclaimKeeps(d: Disk, b: Book, m: Mode)
    requires m.Up? && UpInv(d, b, m)
    ensures UpInv(SyncDir(d), b.(limboHeld := []), m.(phase := Resting))
  {
    hide DiskInv, PlaceOk, Covered, PhaseOk, Softs, View, SnapshotOf, Served;
    var b' := b.(limboHeld := []);
    DiskLengths(d, b);
    CkptMembers(d, b);
    SyncDirKeeps(d, b);
    SoftsSame(b, b');
    PlaceSame(d, b, m, SyncDir(d), b', m.(phase := Resting));
    Rests(SyncDir(d), b', m);
  }

  lemma Rests(d: Disk, b: Book, m: Mode)
    requires m.Up? && |b.held| == |d.segs|
    ensures PhaseOk(d, b, m.(phase := Resting))
  {
  }

  lemma CkptKeeps(s: Sys, t: Step)
    requires Inv(s) && EnabledCkpt(s, t) && !Demotes(s, t)
    ensures Inv(PerformCkpt(s, t))
  {
    hide UpInv, OpenInv, DiskInv, SyncDir;
    var d, b, m := s.disk, s.book, s.mode;
    var d', b', m' := PerformCkpt(s, t).disk, PerformCkpt(s, t).book, PerformCkpt(s, t).mode;
    UpLengths(d, b, m);
    match t {
      case Pin => WantKeeps(d, b, m, Rotating);
      case Keep => KeepKeeps(d, b, m, d', m');
      case Replace => ReplaceKeeps(d, b, m, d', m');
      case SyncCkpt => SyncCkptKeeps(d, b, m, b', m');
      case Reclaim => ReclaimKeeps(d, b, m, d', b', m');
      case FinishReclaim =>
        FinishReclaimKeeps(d, b, m);
        RestKeeps(d, b, m);
      case FailCkpt => RestKeeps(d, b, m);
    }
  }
}
