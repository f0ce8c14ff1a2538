/** What the durable engine guarantees over every run of commits, checkpoints, failures, crashes and recoveries. */
module DurableTheorems {
  import opened Types
  import opened WalRecord
  import opened WalSegment
  import opened Histories
  import opened Replay
  import opened DurableStore
  import opened DurableSafety
  import opened DurableInvariant
  import opened DurableSteps
  import opened DurableRecovery

  lemma {:induction false} InvHolds(run: seq<Sys>, k: nat)
    requires IsSafeRun(run) && k < |run|
    ensures Inv(run[k])
  {
    hide Inv, Enabled, Perform, Init;
    if k == 0 {
      InitHolds(run[0].maxSeg);
    } else {
      InvHolds(run, k - 1);
      assert SafeAt(run, k);
      var t :| Enabled(run[k - 1], t) && !Demotes(run[k - 1], t) && run[k] == Perform(run[k - 1], t);
      StepKeeps(run[k - 1], t);
    }
  }

  /** The book after a crash records the same commits. */
  lemma CrashedInv(s: Sys, c: Survival) returns (b: Book)
    requires Inv(s) && CanSurvive(s.disk, c)
    ensures DiskInv(AfterCrash(s.disk, c), b) && AtRest(AfterCrash(s.disk, c))
    ensures b.hist == s.book.hist && b.inflight == s.book.inflight && b.floor == s.book.floor
  {
    hide UpInv, OpenInv, DiskInv, AfterCrash, Chosen, AtRest;
    InvDisk(s);
    LimboLengths(s.disk, s.book);
    b := PerformWorld(s, Crash(c)).book;
    CrashKeeps(s.disk, s.book, c, b);
  }

  /** Opening `d` succeeds, and gives the durable commits followed by the first `n` in flight. */
  ghost predicate OpensTo(d: Disk, b: Book, n: nat) {
    n <= |b.inflight| && Recover(d).Recovered? && Recover(d).snap == SnapshotOf(b.hist + b.inflight[..n])
  }

  /**
   * Crash recovery: whatever step of whatever run a crash interrupts, and whatever it keeps, the
   * directory opens, and holds exactly the durable commits, every acknowledged one among them, followed
   * by a prefix of those in flight.
   */
  lemma CrashRecovers(run: seq<Sys>, k: nat, c: Survival)
    requires IsSafeRun(run) && k < |run| && CanSurvive(run[k].disk, c)
    ensures exists n: nat :: OpensTo(AfterCrash(run[k].disk, c), run[k].book, n)
  {
    hide Inv, IsSafeRun, DiskInv, AfterCrash, Salvages, Load, Log, HeldWith, SnapshotOf, Recover;
    InvHolds(run, k);
    var b := CrashedInv(run[k], c);
    var d := AfterCrash(run[k].disk, c);
    var n := FindSalvage(d, b);
    RecoverSucceeds(d, b, n);
    SalvageBound(d, b, n);
    assert OpensTo(d, run[k].book, n);
  }

  /** With nothing in flight, recovery gives exactly the durable commits. */
  lemma QuietCrashRecovers(run: seq<Sys>, k: nat, c: Survival)
    requires IsSafeRun(run) && k < |run| && CanSurvive(run[k].disk, c) && run[k].book.inflight == []
    ensures Recover(AfterCrash(run[k].disk, c)).Recovered?
    ensures Recover(AfterCrash(run[k].disk, c)).snap == SnapshotOf(run[k].book.hist)
  {
    hide IsSafeRun, AfterCrash, SnapshotOf, Recover;
    CrashRecovers(run, k, c);
    var n: nat :| OpensTo(AfterCrash(run[k].disk, c), run[k].book, n);
    assert run[k].book.hist + run[k].book.inflight[..n] == run[k].book.hist;
  }

  /**
   * Two generations always agree: at every step, whichever intact checkpoint either name may hold,
   * replaying the surviving segments from it gives the state recovery ends in.
   */
  lemma GenerationsAgree(run: seq<Sys>, k: nat, c: Survival, base: Snapshot)
    requires IsSafeRun(run) && k < |run| && CanSurvive(run[k].disk, c)
    requires Intact(base) in run[k].disk.dats || Intact(base) in run[k].disk.prevs
    ensures var d := AfterCrash(run[k].disk, c);
      var p := ReplayFrom(base, d.segs);
      Recover(d).Recovered? && p.Replaying? && Snapshot(p.last, p.data) == Recover(d).snap
  {
    hide Inv, IsSafeRun, DiskInv, AfterCrash, Salvages, Load, Log, HeldWith, Recover, Good, ReplayFrom, Fold;
    InvHolds(run, k);
    InvDisk(run[k]);
    CandidateIsGood(run[k].disk, run[k].book, base);
    var b := CrashedInv(run[k], c);
    var d := AfterCrash(run[k].disk, c);
    var n := FindSalvage(d, b);
    RecoverSucceeds(d, b, n);
    ReplayFromAny(d, b, n, base);
  }

  lemma CandidateIsGood(d: Disk, b: Book, base: Snapshot)
    requires DiskInv(d, b) && (Intact(base) in d.dats || Intact(base) in d.prevs)
    ensures Good(base, b.hist, b.floor)
  {
    hide Good, SegsOk, Fits, Holds, Flat, Ordered, LimboOk;
    if Intact(base) in d.dats {
      assert DatOk(Intact(base), b.hist, b.floor);
    } else {
      assert PrevOk(Intact(base), b.hist, b.floor);
    }
  }

  // ---- acknowledged commits are forever ----

  lemma OpenGrows(s: Sys, t: Step)
    requires EnabledOpen(s, t)
    ensures s.book.hist <= PerformOpen(s, t).book.hist
  {
    hide Recover, Tear, Header, CutLast, SyncLast, TrimLast, WriteLast, SyncDir, View, Softs, Seen, ExtendLast;
  }

  lemma CommitGrows(s: Sys, t: Step)
    requires EnabledCommit(s, t)
    ensures s.book.hist <= PerformCommit(s, t).book.hist
  {
    hide GroupBytes, Overflows, CheckOps, SyncLast, TrimLast, WriteLast, ApplyGroup, ExtendLast, View, Softs;
  }

  lemma RotateGrows(s: Sys, t: Step)
    requires EnabledRotate(s, t)
    ensures s.book.hist <= PerformRotate(s, t).book.hist
  {
    hide GroupBytes, Overflows, CheckOps, Header, SyncLast, WriteLast, SyncDir, View, Softs, ExtendLast;
  }

  lemma CkptGrows(s: Sys, t: Step)
    requires EnabledCkpt(s, t)
    ensures PerformCkpt(s, t).book.hist == s.book.hist
  {
    hide SyncDir;
  }

  lemma WorldGrows(s: Sys, t: Step)
    requires EnabledWorld(s, t)
    ensures PerformWorld(s, t).book.hist == s.book.hist
  {
    hide AfterCrash, Chosen;
  }

  lemma StepGrows(s: Sys, t: Step)
    requires Enabled(s, t)
    ensures s.book.hist <= Perform(s, t).book.hist
  {
    hide EnabledOpen, EnabledCommit, EnabledRotate, EnabledCkpt, EnabledWorld,
         PerformOpen, PerformCommit, PerformRotate, PerformCkpt, PerformWorld;
    if EnabledOpen(s, t) {
      OpenGrows(s, t);
    } else if EnabledCommit(s, t) {
      CommitGrows(s, t);
    } else if EnabledRotate(s, t) {
      RotateGrows(s, t);
    } else if EnabledCkpt(s, t) {
      CkptGrows(s, t);
    } else {
      WorldGrows(s, t);
    }
  }

  lemma {:induction false} HistoryGrows(run: seq<Sys>, i: nat, j: nat)
    requires IsSafeRun(run) && i <= j < |run|
    ensures run[i].book.hist <= run[j].book.hist
    decreases j
  {
    hide Enabled, Perform, Init;
    if i < j {
      HistoryGrows(run, i, j - 1);
      assert SafeAt(run, j);
      var t :| Enabled(run[j - 1], t) && !Demotes(run[j - 1], t) && run[j] == Perform(run[j - 1], t);
      StepGrows(run[j - 1], t);
      PrefixTrans(run[i].book.hist, run[j - 1].book.hist, run[j].book.hist);
    }
  }

  /**
   * A commit acknowledged at step `i` is in whatever recovery rebuilds from the disk of any later step
   * `j`, after any crash there: at its own index, after the same commits before it.
   */
  lemma AcknowledgedIsForever(run: seq<Sys>, i: nat, j: nat, c: Survival) returns (h: seq<Commit>)
    requires IsSafeRun(run) && i <= j < |run| && CanSurvive(run[j].disk, c)
    ensures run[i].book.hist <= h
    ensures Recover(AfterCrash(run[j].disk, c)).Recovered?
    ensures Recover(AfterCrash(run[j].disk, c)).snap == SnapshotOf(h)
  {
    hide IsSafeRun, AfterCrash, SnapshotOf, Recover;
    HistoryGrows(run, i, j);
    CrashRecovers(run, j, c);
    var n: nat :| OpensTo(AfterCrash(run[j].disk, c), run[j].book, n);
    h := run[j].book.hist + run[j].book.inflight[..n];
    PrefixTrans(run[i].book.hist, run[j].book.hist, h);
  }

  /** And it is in what readers see whenever the store is up at a later step. */
  lemma AcknowledgedIsServed(run: seq<Sys>, i: nat, j: nat) returns (h: seq<Commit>)
    requires IsSafeRun(run) && i <= j < |run| && run[j].mode.Up?
    ensures run[i].book.hist <= h && run[j].mode.snap == SnapshotOf(h)
  {
    hide IsSafeRun, SnapshotOf, Softs;
    HistoryGrows(run, i, j);
    ReadersSeeServed(run, j);
    h := Served(run[j].book);
    PrefixTrans(run[i].book.hist, run[j].book.hist, h);
  }

  lemma PrefixTrans<T>(a: seq<T>, b: seq<T>, c: seq<T>)
    requires a <= b <= c
    ensures a <= c
  {
  }

  // ---- the running store ----

  /**
   * Readers of a running store always see what exactly the durable commits leave, followed by those
   * recovery found in bytes that are yet to be synced: each key's last put, stamped with the commit that
   * last changed the key's value.
   */
  lemma ReadersSeeServed(run: seq<Sys>, k: nat)
    requires IsSafeRun(run) && k < |run| && run[k].mode.Up?
    ensures run[k].mode.snap == SnapshotOf(Served(run[k].book))
    ensures run[k].book.soft == 0 ==> run[k].mode.snap == SnapshotOf(run[k].book.hist)
    ensures run[k].mode.snap.index == |Served(run[k].book)| && Leaves(Served(run[k].book), run[k].mode.snap.data)
  {
    hide IsSafeRun, DiskInv, PlaceOk, PhaseOk, Covered, Fold, Softs, Served, Leaves;
    InvHolds(run, k);
    NoSofts(run[k].book);
    FoldLeaves(Served(run[k].book));
  }

  /** Recovery never refuses what a crash left: the first step of `open` is always enabled. */
  lemma OpenNeverRefuses(run: seq<Sys>, k: nat)
    requires IsSafeRun(run) && k < |run| && run[k].mode.Down?
    ensures Enabled(run[k], Scan)
  {
    hide IsSafeRun, DiskInv, Salvages, Load, Log, HeldWith, Recover, SnapshotOf, Seen, Settled;
    InvHolds(run, k);
    SeenKeeps(run[k].disk, run[k].book);
    var n := FindSalvage(Seen(run[k].disk), run[k].book);
    RecoverSucceeds(Seen(run[k].disk), run[k].book, n);
  }

  /**
   * Failed writes: at rest, either the log is poisoned or the current segment is the highest-numbered
   * one and reads, byte for byte, as the header and the frames of its durable records and then of those
   * served besides, so the next write lands at its end; all segments' records together end the history.
   */
  lemma HealthyLogIsExact(run: seq<Sys>, k: nat)
    requires IsSafeRun(run) && k < |run| && CanAppend(run[k].mode)
    ensures var d, b, m := run[k].disk, run[k].book, run[k].mode;
      && d.segs != [] && |b.held| == |d.segs|
      && Last(d.segs).num == m.cur && !d.unsure
      && (forall i :: 0 <= i < |d.segs| - 1 ==> d.segs[i].num < m.cur)
      && AllFramable(b.held[|d.segs| - 1] + SoftRecords(b))
      && View(Last(d.segs)) == Segment(b.held[|d.segs| - 1] + SoftRecords(b))
      && Holds(Flat(b.held), b.hist, b.floor)
  {
    hide IsSafeRun, DiskInv, PhaseOk, Covered, Holds, Flat, Framable, Segment, Frames, Tip, Softs;
    InvHolds(run, k);
    var d, b, m := run[k].disk, run[k].book, run[k].mode;
    UpLengths(d, b, m);
    DiskTip(d, b);
    SegmentOfBoth(Last(d.segs), b.held[|d.segs| - 1], SoftRecords(b), GroupRecords(b.hist, b.inflight));
    LogHolds(d, b);
    DiskSorted(d, b);
  }

  /** Reclamation goes on until no segment below the checkpoint's boundary is left. */
  lemma ReclaimIsComplete(run: seq<Sys>, k: nat)
    requires IsSafeRun(run) && k < |run| && Enabled(run[k], FinishReclaim)
    ensures run[k].mode.Up? && run[k].mode.phase.Reclaiming?
    ensures forall i :: 0 <= i < |run[k].disk.segs| ==> run[k].disk.segs[i].num >= run[k].mode.phase.covered
  {
    hide IsSafeRun, Inv, DiskInv, EnabledOpen, EnabledCommit, EnabledRotate, EnabledWorld;
    InvHolds(run, k);
    FinishIsCkpt(run[k]);
    var d, b := run[k].disk, run[k].book;
    ReclaimPlace(run[k]);
    DiskSorted(d, b);
  }

  lemma FinishIsCkpt(s: Sys)
    requires Enabled(s, FinishReclaim)
    ensures EnabledCkpt(s, FinishReclaim)
  {
    hide Recover, Seen, CanFrame, Served, CanSurvive, Tear, Header, CanAppend;
  }

  lemma ReclaimPlace(s: Sys)
    requires Inv(s) && s.mode.Up? && s.mode.phase.Reclaiming?
    ensures DiskInv(s.disk, s.book) && s.mode.phase.covered <= s.mode.cur
  {
    hide DiskInv, PlaceOk, Covered, SnapshotOf, Softs, RetInv, SoftOk;
    InvDisk(s);
    UpLengths(s.disk, s.book, s.mode);
  }

  // ---- the flusher's loop ----

  /** `flush_group` before it appends: the group applied to a copy of the snapshot, one index per commit. */
  method FlushGroup(cur: Snapshot, group: seq<Commit>, ghost hist: seq<Commit>)
    returns (next: Snapshot, records: seq<Record>, indices: seq<nat>)
    requires cur == SnapshotOf(hist)
    ensures next == SnapshotOf(hist + group) && records == GroupRecords(hist, group)
    ensures next.index == |hist| + |group| && Leaves(hist + group, next.data)
    ensures |records| == |group| && forall i :: 0 <= i < |group| ==> records[i] == Record(1, |hist| + i + 1, group[i])
    ensures |indices| == |group| && forall i :: 0 <= i < |group| ==> indices[i] == |hist| + i + 1
  {
    hide Fold, ApplyGroup, Leaves;
    FoldLeaves(hist + group);
    var data, index := cur.data, cur.index;
    records, indices := [], [];
    assert hist + group[..0] == hist;
    for k := 0 to |group|
      invariant index == |hist| + k && data == Fold(hist + group[..k])
      invariant records == GroupRecords(hist, group[..k])
      invariant |indices| == k && forall i :: 0 <= i < k ==> indices[i] == |hist| + i + 1
    {
      index := index + 1;
      assert (hist + group)[..|hist| + k] == hist + group[..k];
      assert (hist + group)[..|hist| + k + 1] == hist + group[..k + 1];
      FoldNext(hist + group, |hist| + k);
      data := ApplyCommit(group[k], data, index);
      records := records + [Record(TERM, index, group[k])];
      indices := indices + [index];
    }
    assert group[..|group|] == group;
    next := Snapshot(index, data);
  }

  /** One commit's ops applied in order: the last op on a key decides, and a key no op names keeps its binding. */
  method ApplyCommit(ops: seq<Op>, m: Map, index: nat) returns (r: Map)
    ensures r == ApplyOps(ops, m, index)
    ensures forall key, j: nat :: LastOp(ops, key, j) ==>
              match ops[j]
              case Put(_, v) => key in r && r[key].value == v
              case Delete(_) => key !in r
    ensures forall key :: (forall j: nat :: !LastOp(ops, key, j)) ==>
              (key in r <==> key in m) && (key in m ==> r[key] == m[key])
  {
    forall key: Bytes
      ensures forall j: nat :: LastOp(ops, key, j) ==>
                match ops[j]
                case Put(_, v) => key in ApplyOps(ops, m, index) && ApplyOps(ops, m, index)[key].value == v
                case Delete(_) => key !in ApplyOps(ops, m, index)
      ensures (forall j: nat :: !LastOp(ops, key, j)) ==>
                (key in ApplyOps(ops, m, index) <==> key in m) && (key in m ==> ApplyOps(ops, m, index)[key] == m[key])
    {
      LastOpDecides(ops, m, index, key);
    }
    r := m;
    for i := 0 to |ops|
      invariant r == ApplyOps(ops[..i], m, index)
    {
      assert ops[..i + 1][..i] == ops[..i];
      r := Apply(ops[i], r, index);
    }
    assert ops[..|ops|] == ops;
  }
}
