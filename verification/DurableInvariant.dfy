/** The durable engine's invariant, and that every step keeps it. */
module DurableInvariant {
  import opened Types
  import opened Codec
  import opened WalRecord
  import opened WalSegment
  import opened Histories
  import opened Replay
  import opened DurableStore
  import opened DurableSafety

  // ---- the invariant ----

  /** The index of the checkpoint the next checkpoint will retain as `snap.prev`. */
  function RetIndex(d: Disk, damaged: bool): nat {
    if !damaged && d.dat.Intact? then d.dat.snap.index else IndexOf(d.prev)
  }

  /** The latest checkpoint was damaged after the store was opened. */
  predicate Unnoticed(d: Disk, damaged: bool) { !damaged && d.dat.Damaged? }

  predicate RetInv(d: Disk, b: Book, damaged: bool) {
    && b.floor <= b.ret <= |b.hist|
    && (Unnoticed(d, damaged) ||
          (b.ret <= RetIndex(d, damaged) && if damaged then Absent !in d.prevs else Damaged !in d.dats))
  }

  /** A scan of these bytes finds `recs`, and cutting the tail it reports leaves just them. */
  predicate Repairable(b: Bytes, recs: seq<Record>)
    requires AllFramable(recs)
  {
    var s := ScanSegment(b);
    && s.Scanned? && s.recs == recs
    && (s.tail.Clean? ==> b == Segment(recs))
    && (s.tail.Torn? ==> HeaderOr(b[..s.tail.at], recs))
  }

  /** The records of the commits recovery found in bytes not yet synced. */
  function SoftRecords(b: Book): seq<Record> { GroupRecords(b.hist, Softs(b)) }

  /** Only what is unsynced can be soft. */
  predicate SoftOk(d: Disk, b: Book) {
    b.soft <= |b.inflight| && (b.soft > 0 ==> d.segs != [] && Last(d.segs).pending != []) && (d.unsure ==> b.soft == 0)
  }

  /** How far the repair of the newest segment, which reads as `recs`, has come. */
  predicate StageOk(d: Disk, b: Book, stage: OpenStage)
    requires |b.held| == |d.segs|
  {
    var l := |d.segs| - 1;
    if d.segs == [] then stage.Scanned?
    else if !AllFramable(b.held[l] + SoftRecords(b)) then false
    else
      var view, recs := View(d.segs[l]), b.held[l] + SoftRecords(b);
      match stage
      case Scanned => Repairable(view, recs)
      case Cut(at) => at <= |view| && HeaderOr(view[..at], recs)
      case Repaired => HeaderOr(view, recs) && |b.inflight| == b.soft
      case HeaderWritten => d.segs[l].bytes == [] && b.held[l] == [] && b.inflight == []
      case Complete => Whole(d.segs[l], b.held[l]) && b.inflight == []
  }

  predicate FirstOk(d: Disk, b: Book, first: Option<nat>)
    requires |b.held| == |d.segs|
  {
    match first
    case None => b.ret == |b.hist| && b.soft == 0
    case Some(f) => Covered(d.segs, b.held, f, b.ret) && d.segs != [] && f <= Last(d.segs).num
  }

  ghost predicate OpenInv(d: Disk, b: Book, m: Mode)
    requires m.Opening?
  {
    && DiskInv(d, b) && (d.segs == [] ==> d.limbo == []) && SoftOk(d, b)
    && m.snap == SnapshotOf(Served(b))
    && RetInv(SyncDir(d), b, m.damaged)
    && FirstOk(d, b, m.first)
    && StageOk(d, b, m.stage)
  }

  /** The newest segment holds `recs`, reads on as the frames of `soft`, and then as what was written of `all`. */
  predicate AppendOk(s: Seg, recs: seq<Record>, soft: seq<Record>, all: seq<Record>, a: Append)
    requires AllFramable(recs) && AllFramable(soft) && AllFramable(all)
  {
    var base := Segment(recs) + Frames(soft);
    match a
    case Quiet => View(s) == base
    case Ready(_) => View(s) == base
    case Written(_, wrote) => View(s) == Segment(recs) + Frames(all) && |base| + wrote == |View(s)|
    case Failing(_, wrote) =>
      base <= View(s) && View(s) <= Segment(recs) + Frames(all) && |base| + wrote == |View(s)|
    case Synced(_) => s.bytes == Segment(recs) + Frames(all) && s.pending == []
  }

  predicate NextOk(s: Seg, r: Rotation) {
    match r
    case Still => true
    case Wanted => true
    case Flushed => true
    case Created => s.bytes == [] && s.pending == []
    case Headed => s.bytes == [] && s.pending <= Header()
    case Born => s.bytes == Header() && s.pending == []
  }

  /** A process reads `recs` and then `soft` in the segment. */
  predicate Reaches(s: Seg, recs: seq<Record>, soft: seq<Record>) {
    AllFramable(recs) && AllFramable(soft) && Segment(recs) + Frames(soft) <= View(s)
  }

  predicate Idle(a: Append) { a.Quiet? || a.Ready? }

  /** Where the next write lands: unless the log is poisoned, at the end of the highest-numbered segment. */
  predicate PlaceOk(d: Disk, b: Book, m: Mode)
    requires m.Up? && |b.held| == |d.segs| && d.segs != []
  {
    var l := |d.segs| - 1;
    && m.cur <= d.segs[l].num
    && (m.append.Quiet? ==> m.poisoned || b.inflight == Softs(b))
    && (!m.append.Quiet? ==> b.inflight == Softs(b) + m.append.group && !m.poisoned)
    && (m.append.Synced? || m.rotation.Flushed? ==> b.soft == 0)
    && if m.poisoned then m.rotation.Still? && (b.soft > 0 ==> Reaches(d.segs[l], b.held[l], SoftRecords(b)))
       else if m.rotation.Still? || m.rotation.Wanted? || m.rotation.Flushed? then
         && d.segs[l].num == m.cur && !d.unsure
         && AllFramable(b.held[l]) && AllFramable(SoftRecords(b)) && AllFramable(GroupRecords(b.hist, b.inflight))
         && AppendOk(d.segs[l], b.held[l], SoftRecords(b), GroupRecords(b.hist, b.inflight), m.append)
         && (!m.rotation.Still? ==> Idle(m.append))
         && (m.rotation.Flushed? ==> d.segs[l].pending == [])
       else
         && l > 0 && d.segs[l - 1].num == m.cur && d.segs[l].num == m.cur + 1
         && b.held[l] == [] && b.soft == 0 && Idle(m.append) && NextOk(d.segs[l], m.rotation)
  }

  ghost predicate PinOk(d: Disk, b: Book, m: Mode, snap: Snapshot, boundary: nat)
    requires m.Up? && |b.held| == |d.segs|
  {
    Good(snap, b.hist, b.ret) && Covered(d.segs, b.held, boundary, snap.index) && boundary <= m.cur
  }

  ghost predicate PhaseOk(d: Disk, b: Book, m: Mode)
    requires m.Up? && |b.held| == |d.segs|
  {
    match m.phase
    case Resting => true
    case Rotating => m.append.Quiet?
    case Pinned(snap, boundary) => PinOk(d, b, m, snap, boundary)
    case Kept(snap, boundary) =>
      PinOk(d, b, m, snap, boundary) && b.ret <= IndexOf(d.prev) && (m.damaged || d.dat.Absent?)
    case Published(snap, boundary) =>
      PinOk(d, b, m, snap, boundary) && b.ret <= IndexOf(d.prev) && (d.dat == Intact(snap) || d.dat.Damaged?)
    case Reclaiming(covered, _) => Covered(d.segs, b.held, covered, b.floor) && covered <= m.cur
  }

  ghost predicate UpInv(d: Disk, b: Book, m: Mode)
    requires m.Up?
  {
    && DiskInv(d, b) && SoftOk(d, b)
    && m.snap == SnapshotOf(Served(b))
    && RetInv(d, b, m.damaged)
    && Covered(d.segs, b.held, m.boundary, b.ret) && m.boundary <= m.cur
    && d.segs != [] && PlaceOk(d, b, m)
    && PhaseOk(d, b, m)
  }

  /** A settled directory: what a power cut leaves. */
  predicate AtRest(d: Disk) {
    Settled(d) && !d.unsure && d.limbo == [] && d.dats == {d.dat} && d.prevs == {d.prev}
  }

  ghost predicate Inv(s: Sys) {
    match s.mode
    case Down => DiskInv(s.disk, s.book) && (s.disk.segs == [] ==> s.disk.limbo == []) && s.book.soft == 0
    case Opening(_, _, _, _) => OpenInv(s.disk, s.book, s.mode)
    case Up(_, _, _, _, _, _, _, _) => UpInv(s.disk, s.book, s.mode)
  }

  lemma InitHolds(maxSeg: nat)
    ensures Inv(Init(maxSeg))
  {
  }

  lemma InvDisk(s: Sys)
    requires Inv(s)
    ensures DiskInv(s.disk, s.book)
  {
  }

  // ---- changing only the newest segment ----

  lemma OrderedSetLast(limbo: seq<Seg>, segs: seq<Seg>, s: Seg)
    requires Ordered(limbo, segs) && segs != [] && s.num == Last(segs).num
    ensures Ordered(limbo, SetLast(segs, s))
  {
  }

  lemma SegsOkSetLast(segs: seq<Seg>, held: seq<seq<Record>>, extra: seq<Record>, s: Seg, extra': seq<Record>)
    requires SegsOk(segs, held, extra) && segs != [] && Tip(s, held[|segs| - 1], extra')
    ensures SegsOk(SetLast(segs, s), held, extra')
  {
    hide Tip, Whole;
    var segs' := SetLast(segs, s);
    forall i | 0 <= i < |segs'| - 1 ensures Whole(segs'[i], held[i]) {
      assert Whole(segs[i], held[i]);
    }
  }

  lemma SetLastKeeps(d: Disk, b: Book, s: Seg, b': Book)
    requires DiskInv(d, b) && d.segs != [] && s.num == Last(d.segs).num
    requires b'.hist == b.hist && b'.floor == b.floor && b'.limboHeld == b.limboHeld && b'.held == b.held
    requires Fits(b'.hist + b'.inflight)
    requires Tip(s, b.held[|d.segs| - 1], GroupRecords(b.hist, b'.inflight)) && (d.unsure ==> View(s) <= Header())
    ensures DiskInv(d.(segs := SetLast(d.segs, s)), b')
  {
    hide Fits, Tip, Flat, Holds, CkptsOk, LimboOk, Ordered, SetLast, View, Header;
    SetLastLength(d.segs, s);
    OrderedSetLast(d.limbo, d.segs, s);
    SegsOkSetLast(d.segs, b.held, GroupRecords(b.hist, b.inflight), s, GroupRecords(b.hist, b'.inflight));
  }

  lemma CoveredSetLast(segs: seq<Seg>, held: seq<seq<Record>>, s: Seg, boundary: nat, n: nat)
    requires segs != [] && s.num == Last(segs).num && |held| == |segs|
    requires Covered(segs, held, boundary, n)
    ensures Covered(SetLast(segs, s), held, boundary, n)
  {
    hide AtMost;
  }

  /** Only the group in flight may differ. */
  predicate SameBook(b: Book, b': Book) {
    && Softs(b') == Softs(b) && b'.hist == b.hist && b'.held == b.held && b'.limboHeld == b.limboHeld
    && b'.floor == b.floor && b'.ret == b.ret
  }

  /** Only the append and rotation under way may differ, and a checkpoint's claim on them. */
  predicate SameMode(m: Mode, m': Mode)
    requires m.Up? && m'.Up?
  {
    && m'.snap == m.snap && m'.cur == m.cur && m'.boundary == m.boundary && m'.damaged == m.damaged
    && (m'.phase == m.phase || m'.phase.Resting? || m'.phase.Rotating?)
    && (m'.phase.Rotating? ==> m'.append.Quiet?)
  }

  lemma PhaseSetLast(d: Disk, b: Book, m: Mode, s: Seg, d': Disk, b': Book, m': Mode)
    requires m.Up? && |b.held| == |d.segs| && PhaseOk(d, b, m)
    requires d.segs != [] && s.num == Last(d.segs).num && d'.segs == SetLast(d.segs, s)
    requires d'.dat == d.dat && d'.prev == d.prev && |d'.segs| == |d.segs|
    requires SameBook(b, b') && m'.Up? && SameMode(m, m')
    ensures PhaseOk(d', b', m')
  {
    hide Covered, Good, SetLast;
    match m.phase {
      case Pinned(snap, boundary) => CoveredSetLast(d.segs, b.held, s, boundary, snap.index);
      case Kept(snap, boundary) => CoveredSetLast(d.segs, b.held, s, boundary, snap.index);
      case Published(snap, boundary) => CoveredSetLast(d.segs, b.held, s, boundary, snap.index);
      case Reclaiming(covered, _) => CoveredSetLast(d.segs, b.held, s, covered, b.floor);
      case _ =>
    }
  }

  /** A step that touches only the newest segment's bytes and the append or rotation under way. */
  lemma LastStep(d: Disk, b: Book, m: Mode, s: Seg, b': Book, m': Mode)
    requires m.Up? && UpInv(d, b, m) && s.num == Last(d.segs).num
    requires SameBook(b, b') && Fits(b'.hist + b'.inflight) && m'.Up? && SameMode(m, m')
    requires Tip(s, b.held[|d.segs| - 1], GroupRecords(b.hist, b'.inflight)) && (d.unsure ==> View(s) <= Header())
    requires b'.soft == b.soft <= |b'.inflight| && (b'.soft > 0 ==> s.pending != [])
    requires PlaceOk(d.(segs := SetLast(d.segs, s)), b', m')
    ensures UpInv(d.(segs := SetLast(d.segs, s)), b', m')
  {
    hide DiskInv, PlaceOk, Tip, Fits, Covered, SnapshotOf, SetLast, PhaseOk, View, Header, Softs;
    DiskLengths(d, b);
    SetLastLength(d.segs, s);
    SetLastKeeps(d, b, s, b');
    CoveredSetLast(d.segs, b.held, s, m.boundary, b.ret);
    PhaseSetLast(d, b, m, s, d.(segs := SetLast(d.segs, s)), b', m');
  }

  /** A step that leaves the disk alone. */
  lemma ModeStep(d: Disk, b: Book, m: Mode, b': Book, m': Mode)
    requires m.Up? && UpInv(d, b, m)
    requires SameBook(b, b') && Fits(b'.hist + b'.inflight) && m'.Up? && SameMode(m, m')
    requires Tip(Last(d.segs), b.held[|d.segs| - 1], GroupRecords(b.hist, b'.inflight))
    requires b'.soft == b.soft <= |b'.inflight|
    requires PlaceOk(d, b', m')
    ensures UpInv(d, b', m')
  {
    hide DiskInv, PlaceOk, Tip, Fits, PhaseOk, SnapshotOf, SetLast, RetInv, Covered, View, Header, Softs;
    SetLastSame(d.segs);
    UnsureTip(d, b);
    assert d.(segs := SetLast(d.segs, Last(d.segs))) == d;
    LastStep(d, b, m, Last(d.segs), b', m');
  }

  /** What is in flight stays in flight. */
  lemma StayStep(d: Disk, b: Book, m: Mode, m': Mode)
    requires m.Up? && UpInv(d, b, m) && m'.Up? && SameMode(m, m') && |b.held| == |d.segs| && PlaceOk(d, b, m')
    ensures UpInv(d, b, m')
  {
    hide DiskInv, PlaceOk, Tip, Fits, PhaseOk, SnapshotOf, RetInv, Covered;
    DiskTip(d, b);
    ModeStep(d, b, m, b, m');
  }

  lemma UnsureTip(d: Disk, b: Book)
    requires DiskInv(d, b)
    ensures d.unsure ==>
      d.segs != [] && View(Last(d.segs)) <= Header() && |b.held| == |d.segs| && b.held[|d.segs| - 1] == []
  {
    hide SegsOk, Fits, Flat, Holds, CkptsOk, Ordered, LimboOk, Header, View;
    DiskLengths(d, b);
  }

  lemma DiskTip(d: Disk, b: Book)
    requires DiskInv(d, b) && d.segs != []
    ensures |b.held| == |d.segs| && Tip(Last(d.segs), b.held[|d.segs| - 1], GroupRecords(b.hist, b.inflight))
    ensures Fits(b.hist + b.inflight)
  {
    hide Tip, Fits, Flat, Holds, CkptsOk, Ordered, LimboOk;
  }

  lemma DiskLengths(d: Disk, b: Book)
    requires DiskInv(d, b)
    ensures |b.held| == |d.segs|
  {
  }

  lemma SetLastLength(segs: seq<Seg>, s: Seg)
    requires segs != []
    ensures |SetLast(segs, s)| == |segs| && Last(SetLast(segs, s)) == s
  {
  }

  lemma SetLastSame(segs: seq<Seg>)
    requires segs != []
    ensures SetLast(segs, Last(segs)) == segs
  {
  }

  // ---- groups of records ----

  lemma TipOfFrames(s: Seg, recs: seq<Record>, extra: seq<Record>)
    requires AllFramable(recs) && AllFramable(extra)
    requires s.bytes == Segment(recs) && s.pending <= Frames(extra)
    ensures Tip(s, recs, extra)
  {
    hide AllFramable, Segment, Frames;
  }

  lemma TipOfSynced(s: Seg, recs: seq<Record>, extra: seq<Record>)
    requires AllFramable(recs) && AllFramable(extra)
    requires s.bytes == Segment(recs) + Frames(extra) && s.pending == []
    ensures Tip(s, recs, extra)
  {
    hide AllFramable, Segment, Frames;
  }

  /** A tip that reads as far as some group's frames, with another group in flight that starts the same. */
  lemma TipOf(s: Seg, recs: seq<Record>, extra: seq<Record>, extra': seq<Record>)
    requires Tip(s, recs, extra) && AllFramable(extra') && View(s) <= Segment(recs) + Frames(extra')
    ensures Tip(s, recs, extra')
  {
    hide AllFramable, Segment, Frames;
  }

  lemma GroupConcat(hist: seq<Commit>, a: seq<Commit>, b: seq<Commit>)
    ensures GroupRecords(hist, a + b) == GroupRecords(hist, a) + GroupRecords(hist + a, b)
    ensures hist + (a + b) == hist + a + b
  {
  }

  lemma FramesPrefix(recs: seq<Record>, a: seq<Record>, b: seq<Record>)
    requires AllFramable(recs) && AllFramable(a) && AllFramable(b)
    ensures AllFramable(a + b) && Segment(recs) + Frames(a + b) == Segment(recs) + Frames(a) + Frames(b)
    ensures AllFramable(recs + a) && Segment(recs) + Frames(a) == Segment(recs + a)
  {
    hide Framable, Frames, Header;
    FramesConcat(a, b);
    FramesConcat(recs, a);
    Reassociate(Segment(recs), Frames(a), Frames(b));
    Reassociate(Header(), Frames(recs), Frames(a));
  }

  lemma NoGroup(hist: seq<Commit>)
    requires Fits(hist)
    ensures Fits(hist + []) && GroupRecords(hist, []) == [] && AllFramable(GroupRecords(hist, []))
  {
    hide CheckOps;
    assert hist + [] == hist;
  }

  lemma FitsHist(d: Disk, b: Book)
    requires DiskInv(d, b)
    ensures Fits(b.hist) && CanFrame(b.hist, b.inflight)
  {
    hide CanFrame, SegsOk, Flat, Holds, CkptsOk, LimboOk, Ordered;
    FitsParts(b.hist, b.inflight);
  }

  /** The commits in flight: those served, then the group. */
  lemma Flight(b: Book, group: seq<Commit>)
    requires Fits(b.hist + b.inflight) && b.inflight == Softs(b) + group
    ensures Fits(Served(b)) && Fits(Served(b) + group) && CanFrame(Served(b), group)
    ensures AllFramable(SoftRecords(b)) && AllFramable(GroupRecords(Served(b), group))
    ensures GroupRecords(b.hist, b.inflight) == SoftRecords(b) + GroupRecords(Served(b), group)
    ensures AllFramable(GroupRecords(b.hist, b.inflight))
  {
    hide Fits, AllFramable, Softs, CanFrame;
    GroupConcat(b.hist, Softs(b), group);
    FitsParts(Served(b), group);
    FitsParts(b.hist, Softs(b));
    GroupFramable(b.hist, Softs(b));
    GroupFramable(Served(b), group);
    FitsParts(b.hist, b.inflight);
    GroupFramable(b.hist, b.inflight);
  }

  // ---- group commit ----

  lemma SoftsOf(b: Book, group: seq<Commit>)
    requires b.soft <= |b.inflight|
    ensures var b' := b.(inflight := Softs(b) + group);
      Softs(b') == Softs(b) && b'.soft <= |b'.inflight| && Served(b') == Served(b)
  {
  }

  lemma SubmitKeeps(d: Disk, b: Book, m: Mode, group: seq<Commit>)
    requires CanAppend(m) && UpInv(d, b, m) && CanFrame(Served(b), group)
    ensures UpInv(d, b.(inflight := Softs(b) + group), m.(append := Ready(group)))
  {
    hide Tip, Segment, Frames, CheckOps, DiskInv, PhaseOk, AllFramable, Covered, Fits, Softs, View, CanFrame;
    var l := |d.segs| - 1;
    var b' := b.(inflight := Softs(b) + group);
    DiskTip(d, b);
    SoftsOf(b, group);
    FitsJoin(Served(b), group);
    GroupConcat(b.hist, Softs(b), group);
    Flight(b', group);
    FramesPrefix(b.held[l], SoftRecords(b), GroupRecords(Served(b), group));
    TipOf(d.segs[l], b.held[l], GroupRecords(b.hist, b.inflight), GroupRecords(b.hist, b'.inflight));
    ModeStep(d, b, m, b', m.(append := Ready(group)));
  }

  lemma NotRotating(d: Disk, b: Book, m: Mode)
    requires m.Up? && |b.held| == |d.segs| && PhaseOk(d, b, m) && !m.append.Quiet?
    ensures !m.phase.Rotating?
  {
    hide PinOk, Covered;
  }

  /** With nothing unsynced there is nothing soft, and the segment ends with its durable records. */
  lemma WriteTip(l: Seg, recs: seq<Record>, soft: seq<Record>, group: seq<Record>, b: Bytes)
    requires Tip(l, recs, soft + group) && AllFramable(soft) && AllFramable(group)
    requires View(l) == Segment(recs) + Frames(soft) && (l.pending == [] ==> soft == []) && b <= Frames(group)
    ensures var l' := Seg(l.num, l.bytes, l.pending + b);
      && View(l') == Segment(recs) + Frames(soft) + b
      && View(l') <= Segment(recs) + Frames(soft + group) && Tip(l', recs, soft + group)
  {
    hide Framable, Segment, Frames;
    FramesPrefix(recs, soft, group);
    var l' := Seg(l.num, l.bytes, l.pending + b);
    Reassociate(l.bytes, l.pending, b);
    if l.pending == [] {
      NoFrames();
      assert l.bytes == Segment(recs) + [] == Segment(recs);
    }
  }

  lemma WriteKeeps(d: Disk, b: Book, m: Mode, bytes: Bytes, n: nat)
    requires m.Up? && UpInv(d, b, m) && m.append.Ready? && m.rotation.Still?
    requires CanFrame(Served(b), m.append.group) && bytes == GroupBytes(Served(b), m.append.group) && n <= |bytes|
    ensures UpInv(d.(segs := WriteLast(d.segs, bytes[..n])), b,
      m.(append := if n == |bytes| then Written(m.append.group, n) else Failing(m.append.group, n)))
  {
    hide Tip, Segment, Frames, CheckOps, DiskInv, PhaseOk, AllFramable, Covered, SetLast, Fits, Softs, View, CanFrame,
         PlaceOk, AppendOk, SoftRecords, SnapshotOf, RetInv;
    DiskTip(d, b);
    var l, recs, group := Last(d.segs), b.held[|d.segs| - 1], m.append.group;
    var l' := Seg(l.num, l.bytes, l.pending + bytes[..n]);
    var a := if n == |bytes| then Written(group, n) else Failing(group, n);
    ReadyPlace(d, b, m);
    Flight(b, group);
    NotRotating(d, b, m);
    NoSofts(b);
    WriteTip(l, recs, SoftRecords(b), GroupRecords(Served(b), group), bytes[..n]);
    WriteAppend(l', recs, SoftRecords(b), GroupRecords(Served(b), group), group, bytes, n);
    SetLastLength(d.segs, l');
    WriteMore(l);
    AppendPlace(d, b, m, d.(segs := SetLast(d.segs, l')), m.(append := a));
    LastStep(d, b, m, l', b, m.(append := a));
  }

  lemma ReadyPlace(d: Disk, b: Book, m: Mode)
    requires m.Up? && UpInv(d, b, m) && m.append.Ready? && m.rotation.Still? && |b.held| == |d.segs|
    ensures !d.unsure && b.inflight == Softs(b) + m.append.group && AllFramable(b.held[|d.segs| - 1])
    ensures AllFramable(SoftRecords(b)) && View(Last(d.segs)) == Segment(b.held[|d.segs| - 1]) + Frames(SoftRecords(b))
  {
    hide DiskInv, PhaseOk, Covered, Segment, Frames, Framable, View, Softs, SnapshotOf, RetInv;
  }

  lemma WriteAppend(l: Seg, recs: seq<Record>, soft: seq<Record>, more: seq<Record>,
                    group: seq<Commit>, bytes: Bytes, n: nat)
    requires AllFramable(recs) && AllFramable(soft) && AllFramable(more) && bytes == Frames(more) && n <= |bytes|
    requires View(l) == Segment(recs) + Frames(soft) + bytes[..n]
    ensures AllFramable(soft + more)
    ensures AppendOk(l, recs, soft, soft + more, if n == |bytes| then Written(group, n) else Failing(group, n))
  {
    hide Segment, Frames, Framable, View;
    FramesPrefix(recs, soft, more);
    assert n == |bytes| ==> bytes[..n] == bytes;
  }

  /** Only the newest segment's bytes and the append under way moved. */
  lemma AppendPlace(d: Disk, b: Book, m: Mode, d': Disk, m': Mode)
    requires m.Up? && m'.Up? && |b.held| == |d.segs| == |d'.segs| && d.segs != []
    requires m.append.Ready? && m.rotation.Still? && m' == m.(append := m'.append)
    requires (m'.append.Written? || m'.append.Failing?) && m'.append.group == m.append.group
    requires d'.unsure == d.unsure && Last(d'.segs).num == Last(d.segs).num
    requires AllFramable(b.held[|d.segs| - 1]) && AllFramable(SoftRecords(b))
    requires AllFramable(GroupRecords(b.hist, b.inflight))
    requires AppendOk(Last(d'.segs), b.held[|d.segs| - 1], SoftRecords(b), GroupRecords(b.hist, b.inflight), m'.append)
    requires PlaceOk(d, b, m)
    ensures PlaceOk(d', b, m')
  {
    hide AppendOk, AllFramable, Softs, SoftRecords;
  }

  lemma WriteMore(l: Seg)
    ensures forall b: Bytes :: l.pending != [] ==> l.pending + b != []
  {
  }

  lemma NoSofts(b: Book)
    ensures b.soft == 0 ==> Softs(b) == [] && SoftRecords(b) == [] && Served(b) == b.hist
  {
    assert b.inflight[..0] == [] && b.hist + [] == b.hist;
  }

  lemma FailSyncKeeps(d: Disk, b: Book, m: Mode)
    requires m.Up? && UpInv(d, b, m) && m.append.Written?
    ensures UpInv(d, b, m.(append := Failing(m.append.group, m.append.wrote)))
  {
    hide Tip, Segment, Frames, CheckOps, DiskInv, PhaseOk, AllFramable, Covered, Fits, Softs, View, CanFrame;
    DiskTip(d, b);
    Flight(b, m.append.group);
    NotRotating(d, b, m);
    FramesPrefix(b.held[|d.segs| - 1], SoftRecords(b), GroupRecords(Served(b), m.append.group));
    StayStep(d, b, m, m.(append := Failing(m.append.group, m.append.wrote)));
  }

  lemma FailRollBackKeeps(d: Disk, b: Book, m: Mode)
    requires m.Up? && UpInv(d, b, m) && m.append.Failing?
    ensures UpInv(d, b, m.(append := Quiet, poisoned := true))
  {
    hide Tip, Segment, Frames, DiskInv, PhaseOk, AllFramable, Covered, Fits, Softs, View, PlaceOk, SnapshotOf, RetInv,
         SoftRecords;
    DiskLengths(d, b);
    NotRotating(d, b, m);
    FailingPlace(d, b, m);
    StayStep(d, b, m, m.(append := Quiet, poisoned := true));
  }

  lemma FailingPlace(d: Disk, b: Book, m: Mode)
    requires m.Up? && |b.held| == |d.segs| && d.segs != [] && PlaceOk(d, b, m) && m.append.Failing?
    ensures PlaceOk(d, b, m.(append := Quiet, poisoned := true))
  {
    hide Segment, Frames, Framable, Softs, View, SoftRecords;
  }

  // ---- what is synced joins the history ----

  lemma {:induction false} FoldGroup(hist: seq<Commit>, group: seq<Commit>)
    ensures Fold(hist + group) == ApplyGroup(group, Fold(hist), |hist|)
    ensures Leaves(hist + group, ApplyGroup(group, Fold(hist), |hist|))
  {
    hide ApplyOps, Leaves;
    FoldLeaves(hist + group);
    if group == [] {
      assert hist + group == hist;
    } else {
      var init := group[..|group| - 1];
      FoldGroup(hist, init);
      assert (hist + group)[..|hist + group| - 1] == hist + init;
    }
  }

  lemma GoodLonger(snap: Snapshot, hist: seq<Commit>, group: seq<Commit>, floor: nat)
    requires Good(snap, hist, floor)
    ensures Good(snap, hist + group, floor)
  {
    hide Fold;
    PrefixOfLonger(hist, group, snap.index);
  }

  lemma CkptsLonger(dats: set<Ckpt>, prevs: set<Ckpt>, hist: seq<Commit>, group: seq<Commit>, floor: nat)
    requires CkptsOk(dats, prevs, hist, floor)
    ensures CkptsOk(dats, prevs, hist + group, floor)
  {
    hide Good;
    forall f | f in dats ensures DatOk(f, hist + group, floor) {
      assert DatOk(f, hist, floor);
      if f.Intact? { GoodLonger(f.snap, hist, group, floor); }
    }
    forall f | f in prevs ensures PrevOk(f, hist + group, floor) {
      assert PrevOk(f, hist, floor);
      if f.Intact? { GoodLonger(f.snap, hist, group, floor); }
    }
  }

  lemma SegsOkFirm(segs: seq<Seg>, held: seq<seq<Record>>, extra: seq<Record>, s: Seg, more: seq<Record>,
                   extra': seq<Record>)
    requires SegsOk(segs, held, extra) && segs != [] && Tip(s, held[|segs| - 1] + more, extra')
    ensures SegsOk(SetLast(segs, s), ExtendLast(held, more), extra')
  {
    hide Whole, Tip;
    var segs' := SetLast(segs, s);
    forall i | 0 <= i < |segs'| - 1 ensures Whole(segs'[i], ExtendLast(held, more)[i]) {
      assert Whole(segs[i], held[i]);
    }
  }

  lemma CoveredExtend(segs: seq<Seg>, held: seq<seq<Record>>, recs: seq<Record>, boundary: nat, n: nat)
    requires |held| == |segs| && segs != [] && boundary <= Last(segs).num && Covered(segs, held, boundary, n)
    ensures |ExtendLast(held, recs)| == |segs| && Covered(segs, ExtendLast(held, recs), boundary, n)
  {
    hide AtMost;
    var held' := ExtendLast(held, recs);
    forall i | 0 <= i < |segs| && segs[i].num < boundary ensures AtMost(held'[i], n) {
      assert held'[i] == held[i];
    }
  }

  /** Some commits in flight are synced in the newest segment, and join the history. */
  lemma FirmDisk(d: Disk, b: Book, s: Seg, group: seq<Commit>)
    requires DiskInv(d, b) && d.segs != [] && s.num == Last(d.segs).num
    requires |b.held| == |d.segs| && Fits(Served(b) + group)
    requires Tip(s, b.held[|d.segs| - 1] + SoftRecords(b), GroupRecords(Served(b), group))
    requires d.unsure ==> Softs(b) == [] && View(s) <= Header()
    ensures DiskInv(d.(segs := SetLast(d.segs, s)), Firm(b, group))
  {
    hide Segment, Frames, AllFramable, Fits, Flat, Holds, CkptsOk, LimboOk, Ordered, SegsOk, Tip, SetLast, View,
         Header, Softs;
    SegsOkFirm(d.segs, b.held, GroupRecords(b.hist, b.inflight), s, SoftRecords(b), GroupRecords(Served(b), group));
    FlatExtend(b.held, SoftRecords(b));
    HoldsMore(Flat(b.held), b.hist, b.floor, Softs(b));
    CkptsLonger(d.dats, d.prevs, b.hist, Softs(b), b.floor);
    OrderedSetLast(d.limbo, d.segs, s);
    SetLastLength(d.segs, s);
    LastHeld(b.held, SoftRecords(b));
  }

  lemma LastHeld(held: seq<seq<Record>>, recs: seq<Record>)
    requires held != []
    ensures |ExtendLast(held, recs)| == |held|
    ensures ExtendLast(held, recs)[|held| - 1] == held[|held| - 1] + recs
    ensures recs == [] ==> ExtendLast(held, recs) == held
  {
    if recs == [] {
      assert held[|held| - 1] + recs == held[|held| - 1];
      assert held == held[..|held| - 1] + [held[|held| - 1]];
    }
  }

  lemma PhaseLonger(d: Disk, b: Book, m: Mode, more: seq<Commit>, recs: seq<Record>, b': Book, m': Mode)
    requires m.Up? && |b.held| == |d.segs| && d.segs != [] && m.cur <= Last(d.segs).num && PhaseOk(d, b, m)
    requires b'.hist == b.hist + more && b'.floor == b.floor && b'.ret == b.ret
    requires b'.held == ExtendLast(b.held, recs) && |b'.held| == |d.segs|
    requires m'.Up? && m'.phase == m.phase && m'.cur == m.cur && m'.damaged == m.damaged
    requires m.append.Quiet? ==> m'.append.Quiet?
    ensures PhaseOk(d, b', m')
  {
    hide Good, Covered, ExtendLast, AtMost;
    match m.phase {
      case Pinned(snap, boundary) =>
        GoodLonger(snap, b.hist, more, b.ret); CoveredExtend(d.segs, b.held, recs, boundary, snap.index);
      case Kept(snap, boundary) =>
        GoodLonger(snap, b.hist, more, b.ret); CoveredExtend(d.segs, b.held, recs, boundary, snap.index);
      case Published(snap, boundary) =>
        GoodLonger(snap, b.hist, more, b.ret); CoveredExtend(d.segs, b.held, recs, boundary, snap.index);
      case Reclaiming(covered, _) => CoveredExtend(d.segs, b.held, recs, covered, b.floor);
      case _ =>
    }
  }

  lemma ServedFirm(b: Book, group: seq<Commit>)
    ensures Served(Firm(b, group)) == Served(b) && Softs(Firm(b, group)) == []
  {
  }

  /** A sync of the newest segment by an append, its roll-back or a rotation. */
  lemma FirmStep(d: Disk, b: Book, m: Mode, s: Seg, group: seq<Commit>, m': Mode)
    requires m.Up? && UpInv(d, b, m) && s.num == Last(d.segs).num && |b.held| == |d.segs| && !d.unsure
    requires Fits(Served(b) + group) && m'.Up? && SameMode(m, m') && m'.phase == m.phase
    requires m.append.Quiet? ==> m'.append.Quiet?
    requires Tip(s, b.held[|d.segs| - 1] + SoftRecords(b), GroupRecords(Served(b), group))
    requires |Firm(b, group).held| == |d.segs| && PlaceOk(d.(segs := SetLast(d.segs, s)), Firm(b, group), m')
    ensures UpInv(d.(segs := SetLast(d.segs, s)), Firm(b, group), m')
  {
    hide DiskInv, PlaceOk, Tip, Fits, Covered, SnapshotOf, SetLast, PhaseOk, View, Header, Softs, ExtendLast;
    var d1, b' := d.(segs := SetLast(d.segs, s)), Firm(b, group);
    FirmDisk(d, b, s, group);
    ServedFirm(b, group);
    SetLastLength(d.segs, s);
    CurWithin(d, b, m);
    CoveredSetLast(d.segs, b.held, s, m.boundary, b.ret);
    CoveredExtend(d1.segs, b.held, SoftRecords(b), m.boundary, b.ret);
    RotatingIsQuiet(d, b, m);
    PhaseSetLast(d, b, m, s, d1, b, m);
    PhaseLonger(d1, b, m, Softs(b), SoftRecords(b), b', m');
  }

  lemma CurWithin(d: Disk, b: Book, m: Mode)
    requires m.Up? && |b.held| == |d.segs| && d.segs != [] && PlaceOk(d, b, m)
    ensures m.cur <= Last(d.segs).num
  {
    hide AppendOk, NextOk, AllFramable;
  }

  lemma RotatingIsQuiet(d: Disk, b: Book, m: Mode)
    requires m.Up? && |b.held| == |d.segs| && PhaseOk(d, b, m)
    ensures m.phase.Rotating? ==> m.append.Quiet?
  {
    hide PinOk, Covered;
  }

  /** The book after a sync, at the newest segment. */
  lemma FirmLast(b: Book, group: seq<Commit>)
    requires b.held != []
    ensures var b', l := Firm(b, group), |b.held| - 1;
      && |b'.held| == |b.held| && b'.held[l] == b.held[l] + SoftRecords(b)
      && Softs(b') == [] && SoftRecords(b') == [] && AllFramable(SoftRecords(b'))
      && b'.hist == Served(b) && b'.inflight == group == Softs(b') + group && b'.soft == 0
  {
    hide Softs, Framable;
    ServedFirm(b, group);
    LastHeld(b.held, SoftRecords(b));
  }

  lemma SyncKeeps(d: Disk, b: Book, m: Mode)
    requires m.Up? && UpInv(d, b, m) && m.append.Written?
    ensures UpInv(d.(segs := SyncLast(d.segs)), Firm(b, m.append.group), m.(append := Synced(m.append.group)))
  {
    hide Tip, Segment, Frames, CheckOps, DiskInv, PhaseOk, AllFramable, Covered, SetLast, Fits, Softs, View, CanFrame,
         ExtendLast, Firm;
    DiskTip(d, b);
    var l, recs, group := Last(d.segs), b.held[|d.segs| - 1], m.append.group;
    var l' := Seg(l.num, View(l), []);
    Flight(b, group);
    FramesPrefix(recs, SoftRecords(b), GroupRecords(Served(b), group));
    TipOfSynced(l', recs + SoftRecords(b), GroupRecords(Served(b), group));
    SetLastLength(d.segs, l');
    FirmLast(b, group);
    NotRotating(d, b, m);
    FirmStep(d, b, m, l', group, m.(append := Synced(group)));
  }

  /** A synced segment that ends with what was served. */
  lemma FirmTip(l: Seg, recs: seq<Record>, extra: seq<Record>)
    requires AllFramable(recs) && AllFramable(extra) && l.bytes == Segment(recs) && l.pending == []
    ensures Tip(l, recs, extra) && View(l) == Segment(recs)
  {
    hide AllFramable, Segment, Frames;
    TipOfFrames(l, recs, extra);
  }

  lemma RollBackKeeps(d: Disk, b: Book, m: Mode)
    requires m.Up? && UpInv(d, b, m) && m.append.Failing? && m.append.wrote <= |View(Last(d.segs))|
    ensures UpInv(d.(segs := TrimLast(d.segs, |View(Last(d.segs))| - m.append.wrote)), Firm(b, []), m.(append := Quiet))
  {
    hide Tip, Segment, Frames, CheckOps, DiskInv, PhaseOk, AllFramable, Covered, SetLast, Fits, Softs, View, CanFrame,
         ExtendLast, Firm;
    DiskTip(d, b);
    var l, recs := Last(d.segs), b.held[|d.segs| - 1];
    var l' := Seg(l.num, View(l)[..|View(l)| - m.append.wrote], []);
    Flight(b, m.append.group);
    NoGroup(Served(b));
    FramesPrefix(recs, SoftRecords(b), []);
    FirmTip(l', recs + SoftRecords(b), GroupRecords(Served(b), []));
    SetLastLength(d.segs, l');
    FirmLast(b, []);
    NoFrames();
    assert Segment(recs + SoftRecords(b)) + [] == Segment(recs + SoftRecords(b));
    FirmStep(d, b, m, l', [], m.(append := Quiet));
  }

  // Publishing: the group joins the history.

  lemma PublishKeeps(d: Disk, b: Book, m: Mode, b': Book, m': Mode)
    requires m.Up? && UpInv(d, b, m) && m.append.Synced?
    requires b' == b.(hist := b.hist + m.append.group, inflight := [],
                      held := ExtendLast(b.held, GroupRecords(b.hist, m.append.group)))
    requires m' == m.(append := Quiet, snap := Snapshot(m.snap.index + |m.append.group|,
                                                        ApplyGroup(m.append.group, m.snap.data, m.snap.index)))
    ensures UpInv(d, b', m')
  {
    hide Tip, Segment, Frames, AllFramable, DiskInv, PhaseOk, Covered, Fold, ApplyGroup, ExtendLast, Fits, SetLast,
         View;
    var group := m.append.group;
    DiskTip(d, b);
    NoSofts(b);
    assert b.inflight == group by { assert [] + group == group; }
    PublishDisk(d, b, group, b');
    FoldGroup(b.hist, group);
    CurWithin(d, b, m);
    CoveredExtend(d.segs, b.held, GroupRecords(b.hist, group), m.boundary, b.ret);
    PhaseLonger(d, b, m, group, GroupRecords(b.hist, group), b', m');
    PublishPlace(d, b, m, b', m');
    NoSofts(b');
  }

  lemma PublishDisk(d: Disk, b: Book, group: seq<Commit>, b': Book)
    requires DiskInv(d, b) && d.segs != [] && |b.held| == |d.segs| && !d.unsure && b.inflight == group && b.soft == 0
    requires AllFramable(b.held[|d.segs| - 1]) && AllFramable(GroupRecords(b.hist, group))
    requires Last(d.segs).bytes == Segment(b.held[|d.segs| - 1]) + Frames(GroupRecords(b.hist, group))
    requires Last(d.segs).pending == []
    requires b' == b.(hist := b.hist + group, inflight := [], held := ExtendLast(b.held, GroupRecords(b.hist, group)))
    ensures DiskInv(d, b')
  {
    hide Segment, Frames, AllFramable, Fits, SetLast, DiskInv, ExtendLast;
    var all := b.(soft := |group|);
    assert Softs(all) == group;
    SameDisk(d, b, all);
    DiskTip(d, b);
    NoGroup(b.hist + group);
    FramesPrefix(b.held[|d.segs| - 1], GroupRecords(b.hist, group), []);
    FirmTip(Last(d.segs), b.held[|d.segs| - 1] + GroupRecords(b.hist, group), GroupRecords(b.hist + group, []));
    SetLastSame(d.segs);
    FirmDisk(d, all, Last(d.segs), []);
    assert Firm(all, []) == b' && d.(segs := SetLast(d.segs, Last(d.segs))) == d;
  }

  /** How much of what is in flight is served says nothing about the disk. */
  lemma SameDisk(d: Disk, b: Book, b': Book)
    requires DiskInv(d, b) && b' == b.(soft := b'.soft, ret := b'.ret)
    ensures DiskInv(d, b')
  {
    hide SegsOk, Fits, Flat, Holds, CkptsOk, LimboOk, Ordered;
  }

  lemma PublishPlace(d: Disk, b: Book, m: Mode, b': Book, m': Mode)
    requires m.Up? && |b.held| == |d.segs| && d.segs != [] && PlaceOk(d, b, m) && m.append.Synced?
    requires b.inflight == m.append.group && b'.inflight == [] && b'.soft == 0 && b'.hist == b.hist + m.append.group
    requires b'.held == ExtendLast(b.held, GroupRecords(b.hist, m.append.group))
    requires m'.Up? && m'.append == Quiet && m'.rotation == m.rotation && m'.poisoned == m.poisoned && m'.cur == m.cur
    ensures |b'.held| == |d.segs| && PlaceOk(d, b', m')
  {
    hide Segment, Frames, Framable, Softs, ExtendLast, Reaches, AppendOk, SoftRecords, View;
    var l, recs := |d.segs| - 1, GroupRecords(b.hist, m.append.group);
    LastHeld(b.held, recs);
    NoSofts(b');
    NoSofts(b);
    PublishedAppend(d.segs[l], b.held[l], recs, m.append);
  }

  lemma PublishedAppend(s: Seg, recs: seq<Record>, more: seq<Record>, a: Append)
    requires AllFramable(recs) && AllFramable(more) && a.Synced? && AppendOk(s, recs, [], more, a)
    ensures AllFramable(recs + more) && AllFramable([]) && AppendOk(s, recs + more, [], [], Quiet)
  {
    hide Segment, Frames, Framable;
    FramesPrefix(recs, more, []);
    NoFrames();
    assert Segment(recs + more) + [] == Segment(recs + more) && View(s) == s.bytes;
  }

  lemma CommitKeeps(s: Sys, t: Step)
    requires Inv(s) && EnabledCommit(s, t)
    ensures Inv(PerformCommit(s, t))
  {
    hide UpInv, OpenInv, DiskInv, WriteLast, SyncLast, TrimLast, ExtendLast, GroupBytes, ApplyGroup, Overflows,
         CheckOps,
         Firm, Softs, View;
    var d, b, m := s.disk, s.book, s.mode;
    match t {
      case Submit(group) => SubmitKeeps(d, b, m, group);
      case Write(n) => WriteKeeps(d, b, m, GroupBytes(Served(b), m.append.group), n);
      case Sync => SyncKeeps(d, b, m);
      case FailSync => FailSyncKeeps(d, b, m);
      case RollBack => RollBackKeeps(d, b, m);
      case FailRollBack => FailRollBackKeeps(d, b, m);
      case Publish => PublishKeeps(d, b, m, PerformCommit(s, t).book, PerformCommit(s, t).mode);
    }
  }
}
