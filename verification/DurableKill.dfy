/**
 * A process that dies while the machine runs on: what it had written is still there for the next one to
 * read, and still not synced. What recovery then serves, and when a later power cut can take it back.
 */
module DurableKill {
  import opened Types
  import opened WalRecord
  import opened WalSegment
  import opened Histories
  import opened Replay
  import opened DurableStore
  import opened DurableSafety
  import opened DurableInvariant
  import opened DurableSteps
  import opened DurableRecovery
  import opened DurableTheorems

  /** Opening `d` succeeds, and serves `h`, possibly followed by more. */
  ghost predicate Survives(d: Disk, h: seq<Commit>) {
    Recover(d).Recovered? && exists more: seq<Commit> :: Recover(d).snap == SnapshotOf(h + more)
  }

  // ---- what a reader of the newest segment finds ----

  /** A segment cut where its durable records end gives up everything past them. */
  lemma NothingMore(b: Bytes, recs: seq<Record>, extra: seq<Record>, k: nat)
    requires AllFramable(recs) && AllFramable(extra) && HeaderOr(b, recs) && TipReads(b, recs, extra, k)
    ensures k == 0
  {
    hide Framable, ScanSegment, Frames, Header;
    if b == Segment(recs) {
      WholeReads(Seg(0, b, []), recs);
      assert |recs + extra[..k]| == |recs| + k;
    } else {
      HeaderReads(b, extra);
      assert |[] + extra[..k]| == k;
    }
  }

  lemma TipCount(b: Bytes, recs: seq<Record>, extra: seq<Record>, k: nat)
    requires AllFramable(recs) && AllFramable(extra) && TipReads(b, recs, extra, k)
    ensures ScanSegment(b).Scanned? && |ScanSegment(b).recs| == |recs| + k
  {
    hide ScanSegment, Segment;
  }

  /** A byte prefix of a segment that takes in its first `m` records reads as at least those. */
  lemma CutCount(all: seq<Record>, b: Bytes, m: nat)
    requires AllFramable(all) && m <= |all| && Segment(all[..m]) <= b <= Segment(all)
    ensures ScanSegment(b).Scanned? && m <= |ScanSegment(b).recs|
  {
    hide Frame, Frames, Framable, ScanSegment, Header;
    var n := |b| - HEADER_LEN;
    var j := FindWhole(all, n, m);
    assert b == Segment(all)[..HEADER_LEN + n];
    EveryCut(all, n, j);
  }

  /** A segment that reads as far as the first `m` of the commits in flight gives at least those. */
  lemma AtLeast(b: Bytes, recs: seq<Record>, extra: seq<Record>, m: nat, k: nat)
    requires AllFramable(recs) && AllFramable(extra) && m <= |extra| && TipReads(b, recs, extra, k)
    requires Segment(recs) + Frames(extra[..m]) <= b <= Segment(recs) + Frames(extra)
    ensures m <= k
  {
    hide Frames, Framable, ScanSegment, Segment, TipReads;
    FramesPrefix(recs, extra, []);
    FramesPrefix(recs, extra[..m], []);
    assert (recs + extra)[..|recs| + m] == recs + extra[..m];
    CutCount(recs + extra, b, |recs| + m);
    TipCount(b, recs, extra, k);
  }

  // ---- a kill ----

  lemma SoftReached(d: Disk, b: Book, m: Mode)
    requires m.Up? && UpInv(d, b, m) && b.soft > 0
    ensures d.segs != [] && |b.held| == |d.segs| && b.soft <= |b.inflight|
    ensures Reaches(Last(d.segs), b.held[|d.segs| - 1], SoftRecords(b))
  {
    hide DiskInv, PhaseOk, Covered, Framable, Segment, Frames, View, SnapshotOf, Softs, Fits, Tip;
    DiskTip(d, b);
    if !m.poisoned && !m.append.Quiet? {
      Flight(b, m.append.group);
      FramesPrefix(b.held[|d.segs| - 1], SoftRecords(b), GroupRecords(Served(b), m.append.group));
    }
  }

  /** Whatever a running store serves, a process started after it was killed serves too. */
  lemma KillLosesNothing(run: seq<Sys>, k: nat)
    requires IsSafeRun(run) && k < |run| && run[k].mode.Up?
    ensures Survives(Seen(run[k].disk), Served(run[k].book))
  {
    hide IsSafeRun, DiskInv, UpInv, Salvages, Load, Log, HeldWith, Recover, SnapshotOf, Seen, Settled, SettledLast;
    InvHolds(run, k);
    var s := run[k];
    var d, b := s.disk, s.book;
    InvDisk(s);
    SeenKeeps(d, b);
    var n := FindSalvage(Seen(d), b);
    RecoverSucceeds(Seen(d), b, n);
    SalvageBound(Seen(d), b, n);
    if b.soft > 0 {
      SeenAtLeast(d, b, s.mode, n);
    }
    NoSofts(b);
    ServedThen(b, n);
  }

  lemma SeenAtLeast(d: Disk, b: Book, m: Mode, n: nat)
    requires m.Up? && UpInv(d, b, m) && b.soft > 0 && DiskInv(Seen(d), b) && Salvages(Seen(d), b, n)
    ensures b.soft <= n && b.soft <= |b.inflight|
  {
    hide UpInv, DiskInv, Salvages, TipReads, Framable, Segment, Frames, Seen;
    SoftReached(d, b, m);
    UpDisk(d, b, m);
    SeenKeeps(d, b);
    SettledView(Last(d.segs));
    SalvagedTip(Seen(d), b, n);
    GroupSplit(b.hist, b.inflight, b.soft);
    AtLeast(View(Last(d.segs)), b.held[|d.segs| - 1], GroupRecords(b.hist, b.inflight), b.soft, n);
  }

  lemma UpDisk(d: Disk, b: Book, m: Mode)
    requires m.Up? && UpInv(d, b, m)
    ensures DiskInv(d, b)
  {
    hide DiskInv, PhaseOk, PlaceOk, Covered, SnapshotOf, RetInv;
  }

  /** What is served is a prefix of anything that reaches as far. */
  lemma ServedThen(b: Book, n: nat)
    requires b.soft <= n <= |b.inflight|
    ensures exists more: seq<Commit> :: SnapshotOf(b.hist + b.inflight[..n]) == SnapshotOf(Served(b) + more)
  {
    hide SnapshotOf;
    assert b.hist + b.inflight[..n] == Served(b) + b.inflight[b.soft..n];
  }

  // ---- a power cut after a kill ----

  /** The power cut that keeps nothing unsynced in the newest segment. */
  function Bare(d: Disk): Survival {
    Survival(true, seq(|d.limbo|, i => false), 0, d.dat, d.prev)
  }

  /** With unsynced bytes, that power cut leaves exactly the durable commits. */
  lemma BareCrash(s: Sys)
    requires Inv(s) && s.disk.segs != [] && Last(s.disk.segs).pending != []
    ensures CanSurvive(s.disk, Bare(s.disk))
    ensures Recover(AfterCrash(s.disk, Bare(s.disk))).Recovered?
    ensures Recover(AfterCrash(s.disk, Bare(s.disk))).snap == SnapshotOf(s.book.hist)
  {
    hide Inv, DiskInv, Salvages, Load, Log, HeldWith, Recover, SnapshotOf, Tip, TipReads, HeaderOr, AfterCrash,
         Chosen, View;
    var d, c := s.disk, Bare(s.disk);
    InvDisk(s);
    CkptMembers(d, s.book);
    LimboLengths(d, s.book);
    var d', b := AfterCrash(d, c), PerformWorld(s, Crash(c)).book;
    CrashKeeps(d, s.book, c, b);
    var n := FindSalvage(d', b);
    RecoverSucceeds(d', b, n);
    BareLast(d, s.book, b);
    SalvagedTip(d', b, n);
    DiskTip(d, s.book);
    TipHeader(Last(d.segs), s.book.held[|d.segs| - 1], GroupRecords(b.hist, b.inflight));
    NothingMore(Last(d'.segs).bytes, b.held[|d'.segs| - 1], GroupRecords(b.hist, b.inflight), n);
    assert b.hist + b.inflight[..0] == b.hist;
  }

  lemma TipHeader(l: Seg, recs: seq<Record>, extra: seq<Record>)
    requires Tip(l, recs, extra) && l.pending != []
    ensures AllFramable(recs) && AllFramable(extra) && HeaderOr(l.bytes, recs)
  {
    hide AllFramable, Segment, Frames, HeaderOr;
  }

  lemma BareLast(d: Disk, b: Book, b': Book)
    requires d.segs != [] && |b.held| == |d.segs| && CanSurvive(d, Bare(d)) && |b.limboHeld| == |d.limbo|
    requires b'.held == Chosen(b.limboHeld, Bare(d).back) + b.held
    ensures var d' := AfterCrash(d, Bare(d));
      && d'.segs != [] && Last(d'.segs).bytes == Last(d.segs).bytes && |b'.held| >= |b.held|
      && b'.held[|b'.held| - 1] == b.held[|d.segs| - 1]
  {
    hide Chosen;
    assert Last(d.segs).bytes + [] == Last(d.segs).bytes;
  }

  /**
   * Exactly when everything a store serves is safe from a power cut: when nothing recovery found is
   * still unsynced. Otherwise some power cut takes back a commit that readers have seen.
   */
  lemma ServedSurvivesExactlyWhenFirm(run: seq<Sys>, k: nat)
    requires IsSafeRun(run) && k < |run| && run[k].mode.Up?
    ensures run[k].book.soft == 0 <==>
      forall c :: CanSurvive(run[k].disk, c) ==> Survives(AfterCrash(run[k].disk, c), Served(run[k].book))
  {
    hide IsSafeRun, Inv, CanSurvive, AfterCrash, Recover, Bare, Softs, Served, Survives, SnapshotOf;
    var s := run[k];
    InvHolds(run, k);
    NoSofts(s.book);
    if s.book.soft == 0 {
      forall c | CanSurvive(s.disk, c) ensures Survives(AfterCrash(s.disk, c), Served(s.book)) {
        CrashRecovers(run, k, c);
        var n: nat :| OpensTo(AfterCrash(s.disk, c), s.book, n);
        Kept(AfterCrash(s.disk, c), s.book.hist, s.book.inflight[..n]);
      }
    } else {
      SoftPending(s);
      BareCrash(s);
      Lost(AfterCrash(s.disk, Bare(s.disk)), s.book.hist, Served(s.book));
    }
  }

  lemma SoftPending(s: Sys)
    requires Inv(s) && s.mode.Up? && s.book.soft > 0
    ensures s.disk.segs != [] && Last(s.disk.segs).pending != [] && |Served(s.book)| > |s.book.hist|
  {
    hide DiskInv, PhaseOk, PlaceOk, Covered, SnapshotOf, RetInv;
  }

  lemma Kept(d: Disk, h: seq<Commit>, more: seq<Commit>)
    requires Recover(d).Recovered? && Recover(d).snap == SnapshotOf(h + more)
    ensures Survives(d, h)
  {
    hide Recover, SnapshotOf;
  }

  lemma Lost(d: Disk, hist: seq<Commit>, h: seq<Commit>)
    requires Recover(d).Recovered? && Recover(d).snap == SnapshotOf(hist) && |h| > |hist|
    ensures !Survives(d, h)
  {
    hide Recover, Fold;
  }

  // ---- what makes it safe ----

  /** The steps that sync the newest segment of a running store: an append, its roll-back, a rotation. */
  predicate Syncs(t: Step) { t.Sync? || t.RollBack? || t.SyncOld? }

  lemma CommitServes(s: Sys, t: Step)
    requires Inv(s) && EnabledCommit(s, t)
    ensures Served(s.book) <= Served(PerformCommit(s, t).book)
    ensures Syncs(t) ==> Served(s.book) <= PerformCommit(s, t).book.hist
  {
    hide DiskInv, PhaseOk, Covered, GroupBytes, Overflows, CheckOps, SyncLast, TrimLast, WriteLast, ApplyGroup,
         ExtendLast,
         View, AppendOk, SnapshotOf, RetInv;
    var b := s.book;
    match t {
      case Submit(group) => UpSoft(s.disk, b, s.mode); SoftsOf(b, group);
      case Publish => UpLengths(s.disk, b, s.mode); NoSofts(b); NoSofts(PerformCommit(s, t).book);
      case Sync => ServedFirm(b, s.mode.append.group);
      case RollBack => ServedFirm(b, []);
      case Write(_) =>
      case FailSync =>
      case FailRollBack =>
    }
  }

  lemma UpSoft(d: Disk, b: Book, m: Mode)
    requires m.Up? && UpInv(d, b, m)
    ensures b.soft <= |b.inflight|
  {
    hide DiskInv, PhaseOk, PlaceOk, Covered, SnapshotOf, RetInv;
  }

  lemma RotateServes(s: Sys, t: Step)
    requires Inv(s) && EnabledRotate(s, t)
    ensures Served(s.book) == Served(PerformRotate(s, t).book)
    ensures Syncs(t) ==> Served(s.book) <= PerformRotate(s, t).book.hist
  {
    hide UpInv, GroupBytes, Overflows, CheckOps, Header, SyncLast, WriteLast, SyncDir, View, ExtendLast, Softs;
    var b, b' := s.book, PerformRotate(s, t).book;
    if t.SyncOld? {
      SplitFlight(b);
      ServedFirm(b, b.inflight[|Softs(b)|..]);
    } else {
      SoftsSame(b, AddSegment(s).book);
      if t.CleanUp? {
        SoftsSame(b, WithoutNext(s).book);
      }
      SoftsSame(b, b');
    }
  }

  lemma UpServes(s: Sys, t: Step)
    requires Inv(s) && Enabled(s, t) && s.mode.Up? && Perform(s, t).mode.Up?
    ensures Served(s.book) <= Served(Perform(s, t).book)
    ensures Syncs(t) ==> Served(s.book) <= Perform(s, t).book.hist
  {
    hide Inv, Served, EnabledCommit, EnabledRotate, PerformCommit, PerformRotate;
    if EnabledCommit(s, t) {
      CommitServes(s, t);
    } else if EnabledRotate(s, t) {
      RotateServes(s, t);
    } else {
      CkptServes(s, t);
    }
  }

  lemma CkptServes(s: Sys, t: Step)
    requires Enabled(s, t) && s.mode.Up? && Perform(s, t).mode.Up? && !EnabledCommit(s, t) && !EnabledRotate(s, t)
    ensures Served(s.book) == Served(Perform(s, t).book) && !Syncs(t)
  {
    hide SyncDir, AfterCrash, Recover, GroupBytes, Overflows, CheckOps, Header, View;
  }

  /** The store is up from step `i` to step `j`. */
  ghost predicate StaysUp(run: seq<Sys>, i: nat, j: nat)
    requires i <= j < |run|
  {
    forall x :: i <= x <= j ==> run[x].mode.Up?
  }

  lemma {:induction false} ServedGrows(run: seq<Sys>, i: nat, j: nat)
    requires IsSafeRun(run) && i <= j < |run| && StaysUp(run, i, j)
    ensures Served(run[i].book) <= Served(run[j].book)
    decreases j
  {
    hide Inv, Enabled, Perform, Init, Served;
    if i < j {
      ServedGrows(run, i, j - 1);
      assert SafeAt(run, j);
      var t :| Enabled(run[j - 1], t) && !Demotes(run[j - 1], t) && run[j] == Perform(run[j - 1], t);
      InvHolds(run, j - 1);
      UpServes(run[j - 1], t);
      PrefixTrans(Served(run[i].book), Served(run[j - 1].book), Served(run[j].book));
    }
  }

  /**
   * A commit that recovery found and a store served is safe once that store has synced its newest segment,
   * by an append, by rolling one back or by rotating: every power cut at any later step keeps it.
   */
  lemma RecoveredIsKept(run: seq<Sys>, i: nat, j: nat, t: Step, k: nat, c: Survival) returns (h: seq<Commit>)
    requires IsSafeRun(run) && i < j <= k < |run| && StaysUp(run, i, j)
    requires Syncs(t) && Enabled(run[j - 1], t) && run[j] == Perform(run[j - 1], t)
    requires CanSurvive(run[k].disk, c)
    ensures Served(run[i].book) <= h
    ensures Recover(AfterCrash(run[k].disk, c)).Recovered?
    ensures Recover(AfterCrash(run[k].disk, c)).snap == SnapshotOf(h)
  {
    hide Inv, IsSafeRun, Enabled, Perform, AfterCrash, SnapshotOf, Recover, Served;
    ServedGrows(run, i, j - 1);
    InvHolds(run, j - 1);
    UpServes(run[j - 1], t);
    h := AcknowledgedIsForever(run, j, k, c);
    PrefixTrans(Served(run[i].book), Served(run[j - 1].book), run[j].book.hist);
    PrefixTrans(Served(run[i].book), run[j].book.hist, h);
  }

  // ---- a run that serves a commit no sync has covered ----

  lemma Extend(run: seq<Sys>, t: Step)
    requires IsSafeRun(run) && Enabled(run[|run| - 1], t) && !Demotes(run[|run| - 1], t)
    ensures IsSafeRun(run + [Perform(run[|run| - 1], t)])
  {
    hide Enabled, Perform, Init;
    var run' := run + [Perform(run[|run| - 1], t)];
    forall k | 0 < k < |run'| ensures SafeAt(run', k) {
      if k < |run| {
        assert SafeAt(run, k);
      }
    }
  }

  /** A new store being opened, step by step, up to where it accepts commits. */
  function Fresh(k: nat, maxSeg: nat): Sys {
    var d := Disk([], false, [], Absent, Absent, {Absent}, {Absent});
    var b := Book([], [], [[]], [], 0, 0, 0);
    var empty := Snapshot(0, map[]);
    if k == 0 then Init(maxSeg)
    else if k == 1 then Sys(d, Opening(OpenStage.Scanned, empty, None, false), b.(held := []), maxSeg)
    else if k == 2 then
      Sys(d.(segs := [Seg(1, [], [])], unsure := true), Opening(Repaired, empty, None, false), b, maxSeg)
    else if k == 3 then
      Sys(d.(segs := [Seg(1, [], Header())], unsure := true), Opening(HeaderWritten, empty, None, false), b, maxSeg)
    else if k == 4 then
      Sys(d.(segs := [Seg(1, Header(), [])], unsure := true), Opening(Complete, empty, None, false), b, maxSeg)
    else Sys(d.(segs := [Seg(1, Header(), [])]), Up(empty, 1, 1, false, false, Quiet, Still, Resting), b, maxSeg)
  }

  lemma FreshScan(maxSeg: nat)
    ensures Enabled(Fresh(0, maxSeg), Scan) && Perform(Fresh(0, maxSeg), Scan) == Fresh(1, maxSeg)
  {
    var s := Fresh(0, maxSeg);
    assert Files([]) == [];
    assert Recover(Seen(s.disk)) == Recovered(Snapshot(0, map[]), None, false);
    assert Salvaged(s) == 0;
    assert Found(s.book, 0, true) == s.book;
  }

  lemma FreshStep(k: nat, maxSeg: nat, t: Step)
    requires (k == 1 && t == Create) || (k == 2 && t == WriteHeader(HEADER_LEN)) || (k == 3 && t == SyncHeader)
      || (k == 4 && t == SyncOpen)
    ensures Enabled(Fresh(k, maxSeg), t) && Perform(Fresh(k, maxSeg), t) == Fresh(k + 1, maxSeg)
  {
    hide Header, Recover, Tear;
    assert Header()[..HEADER_LEN] == Header() && [] + Header() == Header() && Header() + [] == Header();
    assert HEADER_LEN > 0;
  }

  lemma FreshStore(maxSeg: nat) returns (run: seq<Sys>)
    ensures IsSafeRun(run) && run != [] && run[|run| - 1] == Fresh(5, maxSeg)
  {
    hide Enabled, Perform, Init, Fresh;
    run := [Fresh(0, maxSeg)];
    assert run[0] == Init(maxSeg) && run[0].maxSeg == maxSeg by { FreshInit(maxSeg); }
    FreshScan(maxSeg);
    Extend(run, Scan);
    run := run + [Fresh(1, maxSeg)];
    FreshStep(1, maxSeg, Create);
    Extend(run, Create);
    run := run + [Fresh(2, maxSeg)];
    FreshStep(2, maxSeg, WriteHeader(HEADER_LEN));
    Extend(run, WriteHeader(HEADER_LEN));
    run := run + [Fresh(3, maxSeg)];
    FreshStep(3, maxSeg, SyncHeader);
    Extend(run, SyncHeader);
    run := run + [Fresh(4, maxSeg)];
    FreshStep(4, maxSeg, SyncOpen);
    Extend(run, SyncOpen);
    run := run + [Fresh(5, maxSeg)];
  }

  lemma FreshInit(maxSeg: nat)
    ensures Fresh(0, maxSeg) == Init(maxSeg) && Init(maxSeg).maxSeg == maxSeg
  {
  }

  /** A commit written whole by a process that dies before it syncs. */
  lemma WriteAndDie(run: seq<Sys>, maxSeg: nat, c: Commit) returns (run': seq<Sys>)
    requires IsSafeRun(run) && run[|run| - 1] == Fresh(5, maxSeg) && CheckOps(c)
    ensures IsSafeRun(run') && run' != [] && AllFramable(GroupRecords([], [c]))
    ensures var s := run'[|run'| - 1];
      && s.mode.Down? && s.book == Book([], [c], [[]], [], 0, 0, 0)
      && s.disk.segs == [Seg(1, Header(), Frames(GroupRecords([], [c])))] && !s.disk.unsure
  {
    hide Header, Frames, CheckOps, IsSafeRun, Enabled, Perform, Fresh;
    GroupFramable([], [c]);
    var bytes := Frames(GroupRecords([], [c]));
    var s1, s2 := CommitTo(maxSeg, c, bytes);
    Extend(run, Submit([c]));
    run' := run + [s1];
    Extend(run', Write(|bytes|));
    run' := run' + [s2];
    KillIs(s2);
    Extend(run', Kill);
    run' := run' + [Perform(s2, Kill)];
  }

  lemma CommitTo(maxSeg: nat, c: Commit, bytes: Bytes) returns (s1: Sys, s2: Sys)
    requires CheckOps(c) && AllFramable(GroupRecords([], [c])) && bytes == Frames(GroupRecords([], [c]))
    ensures var s := Fresh(5, maxSeg);
      && Enabled(s, Submit([c])) && s1 == Perform(s, Submit([c]))
      && Enabled(s1, Write(|bytes|)) && s2 == Perform(s1, Write(|bytes|))
    ensures s2.mode.Up? && s2.book == Book([], [c], [[]], [], 0, 0, 0)
    ensures s2.disk.segs == [Seg(1, Header(), bytes)] && !s2.disk.unsure
  {
    hide Header, Frames, CheckOps, Framable;
    var s := Fresh(5, maxSeg);
    var group := [c];
    assert Served(s.book) == [] && Softs(s.book) == [] && [] + group == group;
    s1 := Perform(s, Submit(group));
    assert s1.book == Book([], group, [[]], [], 0, 0, 0);
    assert Served(s1.book) == [];
    assert [] + bytes == bytes && bytes[..|bytes|] == bytes && |View(Last(s1.disk.segs))| == HEADER_LEN;
    s2 := Perform(s1, Write(|bytes|));
  }

  lemma KillIs(s: Sys)
    requires s.mode.Up?
    ensures Enabled(s, Kill) && Perform(s, Kill) == s.(mode := Down, book := s.book.(soft := 0))
  {
  }

  /** What the next process finds of the commit: all of it, and nothing that tells it to sync. */
  lemma FindsIt(s: Sys, c: Commit)
    requires Inv(s) && s.mode.Down? && s.book == Book([], [c], [[]], [], 0, 0, 0)
    requires AllFramable(GroupRecords([], [c]))
    requires s.disk.segs == [Seg(1, Header(), Frames(GroupRecords([], [c])))]
    ensures Recover(Seen(s.disk)).Recovered? && Salvaged(s) == 1 && !Settled(s.disk) && Tear(s.disk).None?
    ensures View(Last(s.disk.segs)) != []
  {
    hide Header, Frames, Framable, DiskInv, Salvages, Recover, Load, Log, HeldWith, TipReads, ScanSegment, Seen;
    var d, b, extra := s.disk, s.book, GroupRecords([], [c]);
    var view := View(Last(d.segs));
    OneFrame(extra);
    EmptySegment();
    FramesPrefix([], extra, []);
    assert [] + extra == extra && extra[..1] == extra;
    SeenKeeps(d, b);
    SettledView(Last(d.segs));
    var n := FindSalvage(Seen(d), b);
    RecoverSucceeds(Seen(d), b, n);
    SalvagedTip(Seen(d), b, n);
    SalvageBound(Seen(d), b, n);
    AtLeast(view, [], extra, 1, n);
    assert |[] + [c][..1]| == 1;
    WholeReads(Seg(1, view, []), extra);
  }

  lemma OneFrame(recs: seq<Record>)
    requires AllFramable(recs) && |recs| == 1
    ensures Frames(recs) != []
  {
    FramesFirst(recs);
  }

  /**
   * Serving what a power cut can take back happens: a process writes a commit and is killed before it
   * syncs, and the next one opens the store and serves the commit without having synced it either.
   */
  lemma SoftIsReachable(maxSeg: nat, c: Commit) returns (run: seq<Sys>)
    requires CheckOps(c)
    ensures IsSafeRun(run)
    ensures var s := run[|run| - 1]; s.mode.Up? && s.book.hist == [] && s.book.soft == 1 && Served(s.book) == [c]
  {
    hide IsSafeRun, Enabled, Perform, Header, Frames, Framable, Inv, CheckOps;
    run := FreshStore(maxSeg);
    run := WriteAndDie(run, maxSeg, c);
    var s := run[|run| - 1];
    InvHolds(run, |run| - 1);
    FindsIt(s, c);
    var s1, s2, s3 := Reopened(s, c);
    Extend(run, Scan);
    run := run + [s1];
    Extend(run, KeepTail);
    run := run + [s2];
    Extend(run, SyncOpen);
    run := run + [s3];
  }

  lemma Reopened(s: Sys, c: Commit) returns (s1: Sys, s2: Sys, s3: Sys)
    requires s.mode.Down? && s.book == Book([], [c], [[]], [], 0, 0, 0) && s.disk.segs != []
    requires Recover(Seen(s.disk)).Recovered? && Salvaged(s) == 1 && !Settled(s.disk) && Tear(s.disk).None?
    requires View(Last(s.disk.segs)) != []
    ensures Enabled(s, Scan) && s1 == Perform(s, Scan)
    ensures Enabled(s1, KeepTail) && s2 == Perform(s1, KeepTail)
    ensures Enabled(s2, SyncOpen) && s3 == Perform(s2, SyncOpen)
    ensures s3.mode.Up? && s3.book.hist == [] && s3.book.soft == 1 && Served(s3.book) == [c]
  {
    hide Recover, Tear, Header, View, Settled, Salvaged, Seen;
    s1 := Perform(s, Scan);
    s2 := Perform(s1, KeepTail);
    s3 := Perform(s2, SyncOpen);
    assert [c][..1] == [c] && [] + [c] == [c];
  }
}
