/**
 * Media damage to the latest checkpoint, whenever it strikes. Recovery falls back past it, unless a
 * checkpoint taken in the meantime demoted the damaged file over the good one.
 */
module DurableDamage {
  import opened Codec
  import opened WalRecord
  import opened WalSegment
  import opened DurableStore
  import opened DurableRecovery
  import opened DurableTheorems
  import opened DurableKill

  /** Every power cut at every step of the run leaves a directory that opens, and so does every kill. */
  ghost predicate AlwaysOpens(run: seq<Sys>) {
    && (forall k, c {:trigger CanSurvive(run[k].disk, c)} ::
          0 <= k < |run| && CanSurvive(run[k].disk, c) ==> Recover(AfterCrash(run[k].disk, c)).Recovered?)
    && forall k {:trigger run[k]} :: 0 <= k < |run| && run[k].mode.Down? ==> Enabled(run[k], Scan)
  }

  /** What a power cut leaves of the names when only the first rename reached the disk. */
  predicate Exposed(d: Disk) { Absent in d.dats && Damaged in d.prevs }

  function Unlucky(d: Disk): Survival {
    Survival(true, seq(|d.limbo|, i => false), 0, Absent, Damaged)
  }

  /** A power cut that keeps just that rename leaves nothing to load. */
  lemma ExposedIsRefused(d: Disk)
    requires Exposed(d)
    ensures CanSurvive(d, Unlucky(d)) && Recover(AfterCrash(d, Unlucky(d))).Unrecoverable?
  {
    hide ReplayFrom, Chosen, SettledSegs;
  }

  lemma DemotingExposes(s: Sys)
    requires Enabled(s, Keep) && Demotes(s, Keep)
    ensures Exposed(Perform(s, Keep).disk)
    ensures Perform(s, Keep).disk.dat == Absent && Perform(s, Keep).disk.prev == Damaged
  {
    assert Perform(s, Keep) == PerformCkpt(s, Keep) by {
      assert !EnabledOpen(s, Keep) && !EnabledCommit(s, Keep) && !EnabledRotate(s, Keep) && EnabledCkpt(s, Keep);
    }
  }

  /**
   * The exact condition, over every run whatsoever: every power cut at every step leaves a directory that
   * opens if and only if no checkpoint of the run demoted a damaged `snap.dat`.
   */
  lemma OpensExactlyWhenNothingDamagedIsDemoted(run: seq<Sys>)
    requires IsRun(run)
    ensures AlwaysOpens(run) <==> IsSafeRun(run)
  {
    hide IsSafeRun, Enabled, Perform, Demotes, CanSurvive, AfterCrash, Recover, Exposed, Unlucky, Init;
    if IsSafeRun(run) {
      forall k: nat, c | k < |run| && CanSurvive(run[k].disk, c)
        ensures Recover(AfterCrash(run[k].disk, c)).Recovered?
      {
        CrashRecovers(run, k, c);
      }
      forall k: nat | k < |run| && run[k].mode.Down? ensures Enabled(run[k], Scan) {
        OpenNeverRefuses(run, k);
      }
    } else {
      var k := UnsafeStep(run);
      DemotingExposes(run[k - 1]);
      ExposedIsRefused(run[k].disk);
      assert CanSurvive(run[k].disk, Unlucky(run[k].disk));
    }
  }

  lemma UnsafeStep(run: seq<Sys>) returns (k: nat)
    requires IsRun(run) && !IsSafeRun(run)
    ensures 0 < k < |run| && Enabled(run[k - 1], Keep) && Demotes(run[k - 1], Keep)
    ensures run[k] == Perform(run[k - 1], Keep)
  {
    hide Enabled, Perform, Init;
    k :| 0 < k < |run| && !SafeAt(run, k);
    assert StepAt(run, k);
    var t :| Enabled(run[k - 1], t) && run[k] == Perform(run[k - 1], t);
    assert t == Keep;
  }

  // ---- how long the damage stays open ----

  ghost predicate NextBy(s: Sys, s': Sys, p: (Sys, Step) -> bool) {
    exists t {:trigger Enabled(s, t)} :: Enabled(s, t) && p(s, t) && s' == Perform(s, t)
  }

  /** Every step from state `i` to state `j` satisfies `p`. */
  ghost predicate Through(run: seq<Sys>, i: nat, j: nat, p: (Sys, Step) -> bool)
    requires i <= j < |run|
  {
    forall k {:trigger run[k]} :: i < k <= j ==> NextBy(run[k - 1], run[k], p)
  }

  lemma LastStep(run: seq<Sys>, i: nat, j: nat, p: (Sys, Step) -> bool) returns (t: Step)
    requires i < j < |run| && Through(run, i, j, p)
    ensures Through(run, i, j - 1, p)
    ensures Enabled(run[j - 1], t) && p(run[j - 1], t) && run[j] == Perform(run[j - 1], t)
  {
    hide Enabled, Perform;
    assert NextBy(run[j - 1], run[j], p);
    t :| Enabled(run[j - 1], t) && p(run[j - 1], t) && run[j] == Perform(run[j - 1], t);
  }

  /** Neither name leads to a checkpoint. */
  predicate Gone(d: Disk) { d.dat.Absent? && d.prev.Damaged? }

  predicate SyncsDirectory(t: Step) {
    t.SyncOpen? || t.CleanUp? || t.SyncNext? || t.SyncCkpt? || t.FinishReclaim?
  }

  /** A directory sync settles the names once the new checkpoint is in place; a crash settles them at once. */
  predicate Unsettled(s: Sys, t: Step) { !t.Crash? && (SyncsDirectory(t) ==> Gone(s.disk)) }

  lemma ScanDisk(s: Sys)
    requires Recover(Seen(s.disk)).Recovered?
    ensures DoScan(s).disk == s.disk
  {
    hide Recover, Seen, Firm;
  }

  /** A step leaves the names as they are, or makes them durable as they are. */
  predicate NamesKept(d: Disk, d': Disk, synced: bool) {
    && d'.dat == d.dat && d'.prev == d.prev
    && (|| (d'.dats == d.dats && d'.prevs == d.prevs)
        || (synced && d'.dats == {d.dat} && d'.prevs == {d.prev}))
  }

  lemma OpenNames(s: Sys, t: Step)
    requires EnabledOpen(s, t)
    ensures NamesKept(s.disk, PerformOpen(s, t).disk, SyncsDirectory(t))
  {
    hide Recover, Seen, Header, Tear, View, Firm, Softs, CutLast, TrimLast, SyncLast, WriteLast, DoScan;
    if t.Scan? {
      ScanDisk(s);
    }
  }

  lemma CommitNames(s: Sys, t: Step)
    requires EnabledCommit(s, t)
    ensures NamesKept(s.disk, PerformCommit(s, t).disk, SyncsDirectory(t))
  {
    hide GroupBytes, Overflows, CheckOps, View, Firm, Softs, TrimLast, SyncLast, WriteLast, ApplyGroup, ExtendLast;
  }

  lemma RotateNames(s: Sys, t: Step)
    requires EnabledRotate(s, t)
    ensures NamesKept(s.disk, PerformRotate(s, t).disk, SyncsDirectory(t))
  {
    hide GroupBytes, Overflows, CheckOps, View, Firm, Softs, SyncLast, WriteLast, Header;
  }

  /** What a checkpoint's own steps and the world do to the names. */
  predicate NamesMoved(s: Sys, d': Disk, t: Step) {
    var d := s.disk;
    match t
    case Keep =>
      || NamesKept(d, d', false)
      || (!d.dat.Absent? && d'.prev == d.dat && d'.dat == Absent
          && d'.dats == d.dats + {Absent} && d'.prevs == d.prevs + {d.dat})
    case Replace => d'.dat.Intact? && d'.prev == d.prev && d'.dats == d.dats + {d'.dat} && d'.prevs == d.prevs
    case DamageLatest => d.prev.Intact? && d.prevs == {d.prev}
    case Crash(_) => true
    case _ => NamesKept(d, d', SyncsDirectory(t))
  }

  lemma CkptNames(s: Sys, t: Step)
    requires EnabledCkpt(s, t)
    ensures NamesMoved(s, PerformCkpt(s, t).disk, t)
  {
  }

  lemma WorldNames(s: Sys, t: Step)
    requires EnabledWorld(s, t)
    ensures NamesMoved(s, PerformWorld(s, t).disk, t)
  {
    hide AfterCrash, Chosen;
  }

  lemma NamesStep(s: Sys, t: Step)
    requires Enabled(s, t)
    ensures NamesMoved(s, Perform(s, t).disk, t)
  {
    hide NamesKept, PerformOpen, PerformCommit, PerformRotate, PerformCkpt, PerformWorld, Recover, Seen, Header, Tear,
         GroupBytes, Overflows, CheckOps, View, CanSurvive;
    if EnabledOpen(s, t) {
      OpenNames(s, t);
    } else if EnabledCommit(s, t) {
      CommitNames(s, t);
    } else if EnabledRotate(s, t) {
      RotateNames(s, t);
    } else if EnabledCkpt(s, t) {
      CkptNames(s, t);
    } else {
      WorldNames(s, t);
    }
  }

  lemma ExposedStep(s: Sys, t: Step)
    requires Exposed(s.disk) && Enabled(s, t) && Unsettled(s, t)
    ensures Exposed(Perform(s, t).disk)
  {
    hide Enabled, Perform;
    NamesStep(s, t);
  }

  /** No checkpoint is published and no power is cut. */
  predicate Unpublished(s: Sys, t: Step) { !t.Crash? && !t.Replace? }

  lemma GoneStep(s: Sys, t: Step)
    requires Gone(s.disk) && Enabled(s, t) && Unpublished(s, t)
    ensures Gone(Perform(s, t).disk)
  {
    hide Enabled, Perform;
    NamesStep(s, t);
  }

  lemma {:induction false} ExposedThrough(run: seq<Sys>, i: nat, j: nat)
    requires i <= j < |run| && Through(run, i, j, Unsettled) && Exposed(run[i].disk)
    ensures Exposed(run[j].disk)
    decreases j
  {
    hide Exposed, Unsettled, Enabled, Perform, Through;
    if i < j {
      var t := LastStep(run, i, j, Unsettled);
      ExposedThrough(run, i, j - 1);
      ExposedStep(run[j - 1], t);
    }
  }

  lemma {:induction false} GoneThrough(run: seq<Sys>, i: nat, j: nat)
    requires i <= j < |run| && Through(run, i, j, Unpublished) && Gone(run[i].disk)
    ensures Gone(run[j].disk)
    decreases j
  {
    hide Gone, Unpublished, Enabled, Perform, Through;
    if i < j {
      var t := LastStep(run, i, j, Unpublished);
      GoneThrough(run, i, j - 1);
      GoneStep(run[j - 1], t);
    }
  }

  /**
   * From a demotion until the directory is synced with the new checkpoint in place, whatever else runs,
   * some power cut leaves a directory that recovery refuses.
   */
  lemma DemotionIsExposed(run: seq<Sys>, i: nat, j: nat)
    requires 0 < i <= j < |run| && Through(run, i, j, Unsettled)
    requires Enabled(run[i - 1], Keep) && Demotes(run[i - 1], Keep) && run[i] == Perform(run[i - 1], Keep)
    ensures exists c :: CanSurvive(run[j].disk, c) && Recover(AfterCrash(run[j].disk, c)).Unrecoverable?
  {
    hide Exposed, Unsettled, Enabled, Perform, Demotes, Through, Recover, AfterCrash, Unlucky;
    DemotingExposes(run[i - 1]);
    ExposedThrough(run, i, j);
    ExposedIsRefused(run[j].disk);
  }

  /**
   * From a demotion until a checkpoint is published, a mere kill is enough: if the checkpoint failed in
   * between, the store cannot be opened again.
   */
  lemma DemotedCannotReopen(run: seq<Sys>, i: nat, j: nat)
    requires 0 < i <= j < |run| && Through(run, i, j, Unpublished) && run[j].mode.Down?
    requires Enabled(run[i - 1], Keep) && Demotes(run[i - 1], Keep) && run[i] == Perform(run[i - 1], Keep)
    ensures Recover(Seen(run[j].disk)).Unrecoverable? && !Enabled(run[j], Scan)
  {
    hide Unpublished, Enabled, Perform, Demotes, Through;
    DemotingExposes(run[i - 1]);
    GoneThrough(run, i, j);
    GoneIsRefused(run[j]);
  }

  /** No later checkpoint renames and no power is cut. */
  predicate NotKept(s: Sys, t: Step) { !t.Crash? && !t.Keep? }

  lemma PrevStep(s: Sys, t: Step)
    requires s.disk.prev.Damaged? && Enabled(s, t) && NotKept(s, t)
    ensures Perform(s, t).disk.prev.Damaged?
  {
    hide Enabled, Perform;
    NamesStep(s, t);
  }

  /**
   * Even a checkpoint that completes leaves the store with one generation: until the next one renames,
   * there is no `snap.prev` to fall back to.
   */
  lemma {:induction false} DemotionLosesTheFallback(run: seq<Sys>, i: nat, j: nat)
    requires 0 < i <= j < |run| && Through(run, i, j, NotKept)
    requires Enabled(run[i - 1], Keep) && Demotes(run[i - 1], Keep) && run[i] == Perform(run[i - 1], Keep)
    ensures run[j].disk.prev.Damaged? && Load(Damaged, run[j].disk.prev).Unloadable?
    decreases j
  {
    hide NotKept, Enabled, Perform, Demotes, Through;
    if i < j {
      var t := LastStep(run, i, j, NotKept);
      DemotionLosesTheFallback(run, i, j - 1);
      PrevStep(run[j - 1], t);
    } else {
      DemotingExposes(run[i - 1]);
    }
  }

  lemma GoneIsRefused(s: Sys)
    requires Gone(s.disk)
    ensures Recover(Seen(s.disk)).Unrecoverable? && !Enabled(s, Scan)
  {
    hide ReplayFrom;
    SeenFiles(s.disk);
  }

  // ---- a run that gets there ----

  /** A store at rest: nothing under way, and both checkpoint names settled. */
  predicate Calm(s: Sys) {
    && CanAppend(s.mode) && s.mode.phase.Resting? && !s.mode.damaged && s.disk.segs != []
    && s.disk.dats == {s.disk.dat} && s.disk.prevs == {s.disk.prev}
  }

  /** A checkpoint's rotation: everything before `Keep`. */
  lemma RotateTo(run: seq<Sys>) returns (run': seq<Sys>)
    requires IsRun(run) && run != [] && Calm(run[|run| - 1]) && run[|run| - 1].mode.cur + 1 < U32_LIMIT
    ensures IsRun(run') && |run'| > |run|
    ensures var s, s' := run[|run| - 1], run'[|run'| - 1];
      && s'.mode == s.mode.(cur := s.mode.cur + 1, phase := Pinned(s.mode.snap, s.mode.cur + 1))
      && s'.disk.dat == s.disk.dat && s'.disk.prev == s.disk.prev && s'.disk.segs != []
      && s'.disk.dats == s.disk.dats && s'.disk.prevs == s.disk.prevs
  {
    hide IsRun, Enabled, Perform, Header, View;
    var s := run[|run| - 1];
    var s1, s2, s3 := RotateFirst(s);
    var s4, s5, s6 := RotateLast(s3);
    AnyExtend(run, Pin);
    run' := run + [s1];
    AnyExtend(run', SyncOld);
    run' := run' + [s2];
    AnyExtend(run', CreateNext);
    run' := run' + [s3];
    AnyExtend(run', WriteNextHeader(HEADER_LEN));
    run' := run' + [s4];
    AnyExtend(run', SyncNextHeader);
    run' := run' + [s5];
    AnyExtend(run', SyncNext);
    run' := run' + [s6];
  }

  lemma AnyExtend(run: seq<Sys>, t: Step)
    requires IsRun(run) && run != [] && Enabled(run[|run| - 1], t)
    ensures IsRun(run + [Perform(run[|run| - 1], t)])
  {
    hide Enabled, Perform, Init;
    var run' := run + [Perform(run[|run| - 1], t)];
    forall k | 0 < k < |run'| ensures StepAt(run', k) {
      if k < |run| {
        assert StepAt(run, k);
      }
    }
  }

  /** The names, and what is in memory, are as before. */
  predicate SameNames(d: Disk, d': Disk) {
    d'.dat == d.dat && d'.prev == d.prev && d'.dats == d.dats && d'.prevs == d.prevs
  }

  lemma RotateFirst(s: Sys) returns (s1: Sys, s2: Sys, s3: Sys)
    requires Calm(s) && s.mode.cur + 1 < U32_LIMIT
    ensures Enabled(s, Pin) && s1 == Perform(s, Pin)
    ensures Enabled(s1, SyncOld) && s2 == Perform(s1, SyncOld)
    ensures Enabled(s2, CreateNext) && s3 == Perform(s2, CreateNext)
    ensures s3.mode == s.mode.(rotation := Created, phase := Rotating) && SameNames(s.disk, s3.disk)
    ensures s3.disk.segs != [] && Last(s3.disk.segs) == Seg(s.mode.cur + 1, [], [])
  {
    hide Recover, Header, View, Firm, SyncLast, GroupBytes, Overflows, CheckOps, Tear;
    s1 := Perform(s, Pin);
    s2 := Perform(s1, SyncOld);
    SyncLastSome(s1.disk.segs);
    s3 := Perform(s2, CreateNext);
  }

  lemma SyncLastSome(segs: seq<Seg>)
    requires segs != []
    ensures SyncLast(segs) != []
  {
  }

  lemma RotateLast(s: Sys) returns (s1: Sys, s2: Sys, s3: Sys)
    requires s.mode.Up? && s.mode.rotation.Created? && s.mode.phase.Rotating?
    requires s.disk.segs != [] && Last(s.disk.segs) == Seg(s.mode.cur + 1, [], [])
    requires s.disk.dats == {s.disk.dat} && s.disk.prevs == {s.disk.prev}
    ensures Enabled(s, WriteNextHeader(HEADER_LEN)) && s1 == Perform(s, WriteNextHeader(HEADER_LEN))
    ensures Enabled(s1, SyncNextHeader) && s2 == Perform(s1, SyncNextHeader)
    ensures Enabled(s2, SyncNext) && s3 == Perform(s2, SyncNext)
    ensures s3.mode == s.mode.(rotation := Still, cur := s.mode.cur + 1, phase := Pinned(s.mode.snap, s.mode.cur + 1))
    ensures s3.disk.segs != [] && SameNames(s.disk, s3.disk)
  {
    hide Recover, Header, Tear, GroupBytes, Overflows, CheckOps;
    s1 := Perform(s, WriteNextHeader(HEADER_LEN));
    assert [] + Header()[..HEADER_LEN] == Header();
    s2 := Perform(s1, SyncNextHeader);
    s3 := Perform(s2, SyncNext);
  }

  /** A whole checkpoint of a store at rest, whose reclamation may fail. */
  lemma CheckpointTo(run: seq<Sys>) returns (run': seq<Sys>)
    requires IsRun(run) && run != [] && Calm(run[|run| - 1]) && run[|run| - 1].mode.cur + 1 < U32_LIMIT
    requires !run[|run| - 1].disk.dat.Damaged?
    ensures IsRun(run') && run' != [] && Calm(run'[|run'| - 1])
    ensures var s, s' := run[|run| - 1], run'[|run'| - 1];
      && s'.mode.cur == s.mode.cur + 1 && s'.disk.dat.Intact?
      && s'.disk.prev == if s.disk.dat.Absent? then s.disk.prev else s.disk.dat
  {
    hide IsRun, Enabled, Perform;
    run' := RotateTo(run);
    var s1, s2, s3, s4 := Publishes(run'[|run'| - 1]);
    AnyExtend(run', Keep);
    run' := run' + [s1];
    AnyExtend(run', Replace);
    run' := run' + [s2];
    AnyExtend(run', SyncCkpt);
    run' := run' + [s3];
    AnyExtend(run', FailCkpt);
    run' := run' + [s4];
  }

  lemma CkptPerforms(s: Sys, t: Step)
    requires EnabledCkpt(s, t)
    ensures Enabled(s, t) && Perform(s, t) == PerformCkpt(s, t)
  {
    hide PerformOpen, PerformCommit, PerformRotate, PerformCkpt, PerformWorld;
    assert !EnabledOpen(s, t) && !EnabledCommit(s, t) && !EnabledRotate(s, t);
  }

  lemma Publishes(s: Sys) returns (s1: Sys, s2: Sys, s3: Sys, s4: Sys)
    requires s.mode.Up? && s.mode.phase.Pinned? && !s.mode.damaged && !s.disk.dat.Damaged?
    ensures Enabled(s, Keep) && s1 == Perform(s, Keep)
    ensures Enabled(s1, Replace) && s2 == Perform(s1, Replace)
    ensures Enabled(s2, SyncCkpt) && s3 == Perform(s2, SyncCkpt)
    ensures Enabled(s3, FailCkpt) && s4 == Perform(s3, FailCkpt)
    ensures s4.mode == s.mode.(boundary := s.mode.phase.boundary, phase := Resting) && s4.disk.segs == s.disk.segs
    ensures s4.disk.dat.Intact? && s4.disk.prev == if s.disk.dat.Absent? then s.disk.prev else s.disk.dat
    ensures s4.disk.dats == {s4.disk.dat} && s4.disk.prevs == {s4.disk.prev}
  {
    hide Enabled, Perform;
    CkptPerforms(s, Keep);
    s1 := PerformCkpt(s, Keep);
    CkptPerforms(s1, Replace);
    s2 := PerformCkpt(s1, Replace);
    CkptPerforms(s2, SyncCkpt);
    s3 := PerformCkpt(s2, SyncCkpt);
    CkptPerforms(s3, FailCkpt);
    s4 := PerformCkpt(s3, FailCkpt);
  }

  /**
   * In every run, from every moment a store with two good generations is at rest: damage to the latest and
   * one more checkpoint, up to where it renames, end with a store that one power cut makes unopenable.
   */
  lemma DamageThenCheckpoint(run: seq<Sys>) returns (run': seq<Sys>)
    requires IsRun(run) && run != [] && Calm(run[|run| - 1]) && run[|run| - 1].mode.cur + 1 < U32_LIMIT
    requires run[|run| - 1].disk.dat.Intact? && run[|run| - 1].disk.prev.Intact?
    ensures IsRun(run') && |run'| > |run| && !AlwaysOpens(run') && !IsSafeRun(run')
    ensures Gone(run'[|run'| - 1].disk)
  {
    hide IsRun, Enabled, Perform, AlwaysOpens, IsSafeRun, Exposed, Recover, Unlucky, AfterCrash, CanSurvive;
    var s0 := Damages(run[|run| - 1]);
    AnyExtend(run, DamageLatest);
    run' := RotateTo(run + [s0]);
    var s := run'[|run'| - 1];
    CanKeep(s);
    AnyExtend(run', Keep);
    run' := run' + [Perform(s, Keep)];
    DemotingExposes(s);
    ExposedIsRefused(Perform(s, Keep).disk);
    NotAlways(run', Unlucky(Perform(s, Keep).disk));
    OpensExactlyWhenNothingDamagedIsDemoted(run');
  }

  lemma CanKeep(s: Sys)
    requires s.mode.Up? && s.mode.phase.Pinned? && !s.mode.damaged && s.disk.dat.Damaged?
    ensures Enabled(s, Keep) && Demotes(s, Keep)
  {
  }

  lemma Damages(s: Sys) returns (s': Sys)
    requires Calm(s) && s.disk.dat.Intact? && s.disk.prev.Intact?
    ensures Enabled(s, DamageLatest) && s' == Perform(s, DamageLatest)
    ensures Calm(s') && s'.mode == s.mode && s'.disk.dat == Damaged
  {
    s' := Perform(s, DamageLatest);
  }

  lemma NotAlways(run: seq<Sys>, c: Survival)
    requires run != [] && CanSurvive(run[|run| - 1].disk, c)
    requires Recover(AfterCrash(run[|run| - 1].disk, c)).Unrecoverable?
    ensures !AlwaysOpens(run)
  {
    hide CanSurvive, Recover, AfterCrash;
    assert CanSurvive(run[|run| - 1].disk, c);
  }

  lemma SafeIsRun(run: seq<Sys>)
    requires IsSafeRun(run)
    ensures IsRun(run) && run != []
  {
    hide Enabled, Perform, Demotes, Init;
    forall k | 0 < k < |run| ensures StepAt(run, k) {
      assert SafeAt(run, k);
    }
  }

  /** And there is such a run, from a new store on. */
  lemma DamageIsReachable(maxSeg: nat) returns (run: seq<Sys>)
    ensures IsRun(run) && !AlwaysOpens(run)
  {
    hide IsRun, IsSafeRun, AlwaysOpens, Header;
    run := FreshStore(maxSeg);
    SafeIsRun(run);
    run := CheckpointTo(run);
    run := CheckpointTo(run);
    run := DamageThenCheckpoint(run);
  }
}
