/**
 * The durable engine as a state machine over single I/O effects: group commits, segment rotations,
 * checkpoints and recovery, each of which may fail or be cut short by a crash at any step.
 */
module DurableStore {
  import opened Types
  import opened Codec
  import opened WalRecord
  import opened WalSegment
  import opened Histories
  import opened Replay

  // ---- the disk ----

  /** A log segment: its durable bytes, then bytes written since its last sync. */
  datatype Seg = Seg(num: nat, bytes: Bytes, pending: Bytes)

  /** A checkpoint file, as `load_file` sees it. */
  datatype Ckpt = Absent | Damaged | Intact(snap: Snapshot)

  /**
   * The store directory. Directory changes are durable only once the directory is synced: until then
   * the newest segment may vanish in a crash (`unsure`), unlinked segments may come back (`limbo`), and
   * each checkpoint name may be found as it was at any moment since the last sync (`dats`, `prevs`).
   */
  datatype Disk = Disk(
    segs: seq<Seg>, unsure: bool, limbo: seq<Seg>,
    dat: Ckpt, prev: Ckpt, dats: set<Ckpt>, prevs: set<Ckpt>)

  /** A segment's bytes as a running process reads them. */
  function View(s: Seg): Bytes { s.bytes + s.pending }

  /** Nothing is unsynced in the newest segment. */
  predicate Settled(d: Disk) {
    d.segs != [] ==> Last(d.segs).pending == []
  }

  function SyncDir(d: Disk): Disk {
    d.(unsure := false, limbo := [], dats := {d.dat}, prevs := {d.prev})
  }

  function SetLast(segs: seq<Seg>, s: Seg): seq<Seg>
    requires segs != []
  {
    segs[..|segs| - 1] + [s]
  }

  function Last(segs: seq<Seg>): Seg
    requires segs != []
  {
    segs[|segs| - 1]
  }

  // ---- what a crash leaves ----

  /**
   * What a crash keeps: whether an unsure segment survives, which unlinked segments come back, how many
   * unsynced bytes of the newest segment reached the disk, and which version of each checkpoint name.
   */
  datatype Survival = Survival(newest: bool, back: seq<bool>, bytes: nat, dat: Ckpt, prev: Ckpt)

  predicate CanSurvive(d: Disk, c: Survival) {
    && |c.back| == |d.limbo|
    && c.dat in d.dats && c.prev in d.prevs
    && (d.segs != [] ==> c.bytes <= |Last(d.segs).pending|)
  }

  function Chosen<T>(xs: seq<T>, keep: seq<bool>): seq<T>
    requires |xs| == |keep|
  {
    if xs == [] then [] else (if keep[0] then [xs[0]] else []) + Chosen(xs[1..], keep[1..])
  }

  function SettledLast(s: Seg, n: nat): Seg
    requires n <= |s.pending|
  {
    Seg(s.num, s.bytes + s.pending[..n], [])
  }

  function SettledSegs(d: Disk, c: Survival): seq<Seg>
    requires CanSurvive(d, c)
  {
    if d.segs == [] then []
    else if d.unsure && !c.newest then d.segs[..|d.segs| - 1]
    else SetLast(d.segs, SettledLast(Last(d.segs), c.bytes))
  }

  function AfterCrash(d: Disk, c: Survival): Disk
    requires CanSurvive(d, c)
  {
    Disk(Chosen(d.limbo, c.back) + SettledSegs(d, c), false, [], c.dat, c.prev, {c.dat}, {c.prev})
  }

  /** The directory as a process that starts now reads it: unsynced bytes are there like any others. */
  function Seen(d: Disk): Disk {
    if d.segs == [] then d else d.(segs := SetLast(d.segs, SettledLast(Last(d.segs), |Last(d.segs).pending|)))
  }

  // ---- recovery: `checkpoint::load`, then `wal::replay` ----

  datatype Loaded = Loaded(snap: Snapshot, latestDamaged: bool) | Unloadable

  /** The latest usable checkpoint; an empty store if there is none at all. */
  function Load(dat: Ckpt, prev: Ckpt): Loaded {
    match dat
    case Intact(snap) => Loaded(snap, false)
    case Absent =>
      (match prev
       case Intact(snap) => Loaded(snap, false)
       case Absent => Loaded(Snapshot(0, map[]), false)
       case Damaged => Unloadable)
    case Damaged =>
      (match prev
       case Intact(snap) => Loaded(snap, true)
       case Absent => Unloadable
       case Damaged => Unloadable)
  }

  function Files(segs: seq<Seg>): (files: seq<File>)
    ensures |files| == |segs|
    ensures forall i :: 0 <= i < |segs| ==> files[i] == File(segs[i].num, segs[i].bytes)
  {
    seq(|segs|, i requires 0 <= i < |segs| => File(segs[i].num, segs[i].bytes))
  }

  /** What `open` recovers before it writes anything: the snapshot, and where uncovered log begins. */
  datatype Recovered = Recovered(snap: Snapshot, first: Option<nat>, latestDamaged: bool) | Unrecoverable

  function ReplayFrom(base: Snapshot, segs: seq<Seg>): Progress {
    ReplayFiles(base.index, Replaying(base.data, base.index, None), Files(segs))
  }

  function Recover(d: Disk): Recovered {
    var loaded := Load(d.dat, d.prev);
    if loaded.Unloadable? then Unrecoverable
    else
      var p := ReplayFrom(loaded.snap, d.segs);
      if p.Broken? then Unrecoverable
      else Recovered(Snapshot(p.last, p.data), p.first, loaded.latestDamaged)
  }

  // ---- the running engine ----

  /** The group commit under way; `wrote` is how many bytes of it reached the file. */
  datatype Append = Quiet | Ready(group: seq<Commit>) | Written(group: seq<Commit>, wrote: nat)
    | Failing(group: seq<Commit>, wrote: nat) | Synced(group: seq<Commit>)

  /**
   * The rotation under way: the old segment is synced (`Flushed`) before the new one is created; `Headed`
   * is a segment whose header was written at least in part.
   */
  datatype Rotation = Still | Wanted | Flushed | Created | Headed | Born

  /** The checkpoint under way. */
  datatype Phase = Resting | Rotating
    | Pinned(snap: Snapshot, boundary: nat) | Kept(snap: Snapshot, boundary: nat)
    | Published(snap: Snapshot, boundary: nat) | Reclaiming(covered: nat, removed: bool)

  datatype OpenStage = Scanned | Cut(at: nat) | Repaired | HeaderWritten | Complete

  datatype Mode =
    | Down
    | Opening(stage: OpenStage, snap: Snapshot, first: Option<nat>, damaged: bool)
    | Up(snap: Snapshot, cur: nat, boundary: nat, damaged: bool, poisoned: bool,
         append: Append, rotation: Rotation, phase: Phase)

  /**
   * What the proofs keep beside the system: the commits known to be durable, which every acknowledged one
   * is; the commits that may or may not be, of which the first `soft` were found by recovery in bytes
   * still to be synced, and are served, and the rest are the group in flight; the records each segment
   * durably holds; the index below which the log may have been reclaimed; and a lower bound on the index
   * of the checkpoint the next checkpoint retains.
   */
  datatype Book = Book(
    hist: seq<Commit>, inflight: seq<Commit>, held: seq<seq<Record>>, limboHeld: seq<seq<Record>>,
    floor: nat, ret: nat, soft: nat)

  /** The commits recovery found in bytes not yet synced. */
  function Softs(b: Book): seq<Commit> { if b.soft <= |b.inflight| then b.inflight[..b.soft] else b.inflight }

  /** The commits a running store serves. */
  function Served(b: Book): seq<Commit> { b.hist + Softs(b) }

  /** The newest segment synced: what was served is durable, and `group` alone is in flight. */
  function Firm(b: Book, group: seq<Commit>): Book {
    b.(hist := Served(b), held := ExtendLast(b.held, GroupRecords(b.hist, Softs(b))), inflight := group, soft := 0)
  }

  datatype Sys = Sys(disk: Disk, mode: Mode, book: Book, maxSeg: nat)

  /** The records of a group that follows `hist`. */
  function GroupRecords(hist: seq<Commit>, group: seq<Commit>): (recs: seq<Record>)
    ensures |recs| == |group|
    ensures forall i :: 0 <= i < |recs| ==> recs[i] == Record(TERM, |hist| + i + 1, group[i])
  {
    seq(|group|, i requires 0 <= i < |group| => Record(TERM, |hist| + i + 1, group[i]))
  }

  predicate CanFrame(hist: seq<Commit>, group: seq<Commit>) {
    && |hist| + |group| < U64_LIMIT
    && forall i :: 0 <= i < |group| ==> CheckOps(group[i])
  }

  /** The bytes a group is written as. */
  function GroupBytes(hist: seq<Commit>, group: seq<Commit>): Bytes
    requires CanFrame(hist, group)
  {
    Frames(GroupRecords(hist, group))
  }

  predicate Overflows(s: Sys, group: seq<Commit>)
    requires CanFrame(Served(s.book), group) && s.disk.segs != []
  {
    var len := |View(Last(s.disk.segs))|;
    len + |GroupBytes(Served(s.book), group)| > s.maxSeg && len > HEADER_LEN
  }

  // ---- steps ----

  datatype Step =
    // recovery
    | Scan | Create | CutTail | SyncCut | KeepTail | WriteHeader(n: nat) | SyncHeader | SyncOpen
    // group commit
    | Submit(group: seq<Commit>) | Write(n: nat) | Sync | FailSync | RollBack | FailRollBack | Publish
    // rotation
    | RotateForAppend | SyncOld | FailSyncOld | CreateNext | FailCreate(present: bool)
    | WriteNextHeader(n: nat) | SyncNextHeader
    | CleanUp | FailCleanUp | SyncNext | FailSyncNext
    // checkpoint
    | Pin | Keep | Replace | SyncCkpt | Reclaim | FinishReclaim | FailCkpt
    // the world
    | Crash(c: Survival) | Kill | DamageLatest

  /** The state a store directory that does not exist yet starts from. */
  function Init(maxSeg: nat): Sys {
    Sys(Disk([], false, [], Absent, Absent, {Absent}, {Absent}), Down,
        Book([], [], [], [], 0, 0, 0), maxSeg)
  }

  predicate CanAppend(m: Mode) {
    m.Up? && m.append.Quiet? && m.rotation.Still? && !m.poisoned && !m.phase.Rotating?
  }

  /** Where the newest segment's torn tail starts, if it has one. */
  function Tear(d: Disk): Option<nat> {
    if d.segs == [] then None
    else
      var scan := ScanSegment(View(Last(d.segs)));
      if scan.Scanned? && scan.tail.Torn? then Some(scan.tail.at) else None
  }

  predicate Reclaimable(d: Disk, m: Mode) {
    m.Up? && m.phase.Reclaiming? && d.segs != [] && d.segs[0].num < m.phase.covered && d.segs[0].num != m.cur
  }

  predicate EnabledOpen(s: Sys, t: Step) {
    var d, m := s.disk, s.mode;
    match t
    case Scan => m.Down? && Recover(Seen(d)).Recovered?
    case Create => m.Opening? && m.stage.Scanned? && d.segs == []
    case CutTail => m.Opening? && m.stage.Scanned? && Tear(d).Some?
    case SyncCut => m.Opening? && d.segs != [] && m.stage.Cut? && m.stage.at <= |View(Last(d.segs))|
    case KeepTail => m.Opening? && d.segs != [] && m.stage.Scanned? && Tear(d).None?
    case WriteHeader(n) =>
      m.Opening? && m.stage.Repaired? && d.segs != [] && View(Last(d.segs)) == [] && n <= HEADER_LEN
    case SyncHeader =>
      m.Opening? && m.stage.HeaderWritten? && d.segs != [] && Last(d.segs).pending == Header()
    case SyncOpen =>
      m.Opening? && d.segs != [] && (m.stage.Complete? || (m.stage.Repaired? && View(Last(d.segs)) != []))
    case _ => false
  }

  predicate EnabledCommit(s: Sys, t: Step) {
    var d, m := s.disk, s.mode;
    match t
    case Submit(group) => CanAppend(m) && group != [] && CanFrame(Served(s.book), group)
    case Write(n) =>
      && m.Up? && m.append.Ready? && m.rotation.Still? && d.segs != []
      && CanFrame(Served(s.book), m.append.group) && !Overflows(s, m.append.group)
      && n <= |GroupBytes(Served(s.book), m.append.group)|
    case Sync => m.Up? && m.append.Written? && d.segs != []
    case FailSync => m.Up? && m.append.Written?
    case RollBack => m.Up? && m.append.Failing? && d.segs != [] && m.append.wrote <= |View(Last(d.segs))|
    case FailRollBack => m.Up? && m.append.Failing?
    case Publish => m.Up? && m.append.Synced?
    case _ => false
  }

  predicate EnabledRotate(s: Sys, t: Step) {
    var d, m := s.disk, s.mode;
    match t
    case RotateForAppend =>
      && m.Up? && m.append.Ready? && m.rotation.Still? && d.segs != []
      && CanFrame(Served(s.book), m.append.group) && Overflows(s, m.append.group)
    case SyncOld => m.Up? && m.rotation.Wanted? && d.segs != []
    case FailSyncOld => m.Up? && m.rotation.Wanted?
    case CreateNext => m.Up? && m.rotation.Flushed? && m.cur + 1 < U32_LIMIT
    case FailCreate(present) => m.Up? && m.rotation.Flushed?
    case WriteNextHeader(n) => m.Up? && m.rotation.Created? && n <= HEADER_LEN && d.segs != []
    case SyncNextHeader => m.Up? && m.rotation.Headed? && d.segs != [] && Last(d.segs).pending == Header()
    case CleanUp => m.Up? && (m.rotation.Created? || m.rotation.Headed?) && d.segs != []
    case FailCleanUp => m.Up? && (m.rotation.Created? || m.rotation.Headed?)
    case SyncNext => m.Up? && m.rotation.Born? && d.segs != []
    case FailSyncNext => m.Up? && m.rotation.Born?
    case _ => false
  }

  predicate EnabledCkpt(s: Sys, t: Step) {
    var d, m := s.disk, s.mode;
    match t
    case Pin => CanAppend(m) && m.phase.Resting?
    case Keep => m.Up? && m.phase.Pinned?
    case Replace => m.Up? && m.phase.Kept?
    case SyncCkpt => m.Up? && m.phase.Published?
    case Reclaim => Reclaimable(d, m)
    case FinishReclaim => m.Up? && m.phase.Reclaiming? && !Reclaimable(d, m)
    case FailCkpt =>
      m.Up? && (m.phase.Pinned? || m.phase.Kept? || m.phase.Published? || m.phase.Reclaiming?)
    case _ => false
  }

  predicate EnabledWorld(s: Sys, t: Step) {
    match t
    case Crash(c) => CanSurvive(s.disk, c)
    case Kill => !(s.mode.Opening? && s.mode.stage.Cut?)
    case DamageLatest =>
      s.disk.dat.Intact? && s.disk.prev.Intact? && s.disk.dats == {s.disk.dat} && s.disk.prevs == {s.disk.prev}
    case _ => false
  }

  predicate Enabled(s: Sys, t: Step) {
    EnabledOpen(s, t) || EnabledCommit(s, t) || EnabledRotate(s, t) || EnabledCkpt(s, t) || EnabledWorld(s, t)
  }

  /** With a group ready, the log rotates first exactly when the newest segment holds records and the group's
      frames would take it past the limit; otherwise the group is written where it is. */
  lemma RotatesExactlyWhenFull(s: Sys)
    requires s.mode.Up? && s.mode.append.Ready? && s.mode.rotation.Still? && s.disk.segs != []
    requires CanFrame(Served(s.book), s.mode.append.group)
    ensures var len := |Last(s.disk.segs).bytes| + |Last(s.disk.segs).pending|;
            var full := len > 12 && len + |Frames(GroupRecords(Served(s.book), s.mode.append.group))| > s.maxSeg;
            (Enabled(s, RotateForAppend) <==> full) && (Enabled(s, Write(0)) <==> !full)
  {
    hide Frames, Recover, Seen, CanFrame, Served, CanSurvive, Tear, Header, CanAppend;
  }

  // Recovery.

  /** How many commits in flight when the store went down recovery finds in the log. */
  function Salvaged(s: Sys): nat
    requires Recover(Seen(s.disk)).Recovered?
  {
    var n := Recover(Seen(s.disk)).snap.index - |s.book.hist|;
    if 0 <= n <= |s.book.inflight| then n else 0
  }

  function ExtendLast(held: seq<seq<Record>>, recs: seq<Record>): seq<seq<Record>> {
    if held == [] then [] else held[..|held| - 1] + [held[|held| - 1] + recs]
  }

  /** Recovery found `k` commits beyond the history: durable if nothing is unsynced, to be served if it is. */
  function Found(b: Book, k: nat, settled: bool): Book
    requires k <= |b.inflight|
  {
    if settled then Firm(b.(soft := k), b.inflight[k..]) else b.(soft := k)
  }

  function LoadedIndex(d: Disk): nat {
    var loaded := Load(d.dat, d.prev);
    if loaded.Loaded? then loaded.snap.index else 0
  }

  function DoScan(s: Sys): Sys
    requires Recover(Seen(s.disk)).Recovered?
  {
    var r := Recover(Seen(s.disk));
    s.(mode := Opening(OpenStage.Scanned, r.snap, r.first, r.latestDamaged),
       book := Found(s.book, Salvaged(s), Settled(s.disk)).(ret := LoadedIndex(s.disk)))
  }

  /** Cut the newest segment at byte `at`; until the cut is synced the bytes past it may come back. */
  function CutLast(segs: seq<Seg>, at: nat): seq<Seg>
    requires segs != []
  {
    var l := Last(segs);
    if at < |l.bytes| then SetLast(segs, Seg(l.num, l.bytes[..at], View(l)[at..])) else segs
  }

  /** The newest segment cut at byte `at`, and the cut synced. */
  function TrimLast(segs: seq<Seg>, at: nat): seq<Seg>
    requires segs != [] && at <= |View(Last(segs))|
  {
    var l := Last(segs);
    SetLast(segs, Seg(l.num, View(l)[..at], []))
  }

  function SyncLast(segs: seq<Seg>): seq<Seg>
    requires segs != []
  {
    var l := Last(segs);
    SetLast(segs, Seg(l.num, View(l), []))
  }

  /** Bytes written at the newest segment's end, still to be synced. */
  function WriteLast(segs: seq<Seg>, b: Bytes): seq<Seg>
    requires segs != []
  {
    var l := Last(segs);
    SetLast(segs, Seg(l.num, l.bytes, l.pending + b))
  }

  function PerformOpen(s: Sys, t: Step): Sys
    requires EnabledOpen(s, t)
  {
    var d, m := s.disk, s.mode;
    match t
    case Scan => DoScan(s)
    case Create =>
      s.(disk := d.(segs := [Seg(1, [], [])], unsure := true), mode := m.(stage := Repaired),
         book := s.book.(held := [[]], inflight := []))
    case CutTail =>
      s.(disk := d.(segs := CutLast(d.segs, Tear(d).value)), mode := m.(stage := Cut(Tear(d).value)))
    case SyncCut =>
      s.(disk := d.(segs := TrimLast(d.segs, m.stage.at)), mode := m.(stage := Repaired), book := Firm(s.book, []))
    case KeepTail => s.(mode := m.(stage := Repaired), book := s.book.(inflight := Softs(s.book)))
    case WriteHeader(n) =>
      s.(disk := d.(segs := WriteLast(d.segs, Header()[..n])), mode := m.(stage := HeaderWritten))
    case SyncHeader =>
      s.(disk := d.(segs := SyncLast(d.segs)), mode := m.(stage := Complete))
    case SyncOpen =>
      var cur := Last(d.segs).num;
      s.(disk := SyncDir(d),
         mode := Up(m.snap, cur, m.first.GetOr(cur), m.damaged, false, Quiet, Still, Resting),
         book := s.book.(limboHeld := []))
  }

  // Group commit.

  function PerformCommit(s: Sys, t: Step): Sys
    requires EnabledCommit(s, t)
  {
    var d, m := s.disk, s.mode;
    match t
    case Submit(group) =>
      s.(mode := m.(append := Ready(group)), book := s.book.(inflight := Softs(s.book) + group))
    case Write(n) =>
      var group := m.append.group;
      var bytes := GroupBytes(Served(s.book), group);
      s.(disk := d.(segs := WriteLast(d.segs, bytes[..n])),
         mode := m.(append := if n == |bytes| then Written(group, n) else Failing(group, n)))
    case Sync =>
      s.(disk := d.(segs := SyncLast(d.segs)), mode := m.(append := Synced(m.append.group)),
         book := Firm(s.book, m.append.group))
    case FailSync => s.(mode := m.(append := Failing(m.append.group, m.append.wrote)))
    case RollBack =>
      s.(disk := d.(segs := TrimLast(d.segs, |View(Last(d.segs))| - m.append.wrote)), mode := m.(append := Quiet),
         book := Firm(s.book, []))
    case FailRollBack => s.(mode := m.(append := Quiet, poisoned := true))
    case Publish =>
      var group := m.append.group;
      var b := s.book;
      s.(mode := m.(append := Quiet,
                    snap := Snapshot(m.snap.index + |group|, ApplyGroup(group, m.snap.data, m.snap.index))),
         book := b.(hist := b.hist + group, inflight := [],
                    held := ExtendLast(b.held, GroupRecords(b.hist, group))))
  }

  /** `flush_group`'s loop: each commit of the group applied at its own index. */
  function ApplyGroup(group: seq<Commit>, data: Map, index: nat): Map {
    if group == [] then data
    else ApplyOps(group[|group| - 1], ApplyGroup(group[..|group| - 1], data, index), index + |group|)
  }

  // Rotation.

  /** A rotation that ends without switching segments also ends the append or checkpoint that asked for it. */
  function Aborted(s: Sys, poison: bool): Sys
    requires s.mode.Up?
  {
    var m := s.mode;
    s.(mode := m.(rotation := Still, append := Quiet, poisoned := m.poisoned || poison,
                  phase := if m.phase.Rotating? then Resting else m.phase),
       book := s.book.(inflight := Softs(s.book)))
  }

  function AddSegment(s: Sys): Sys
    requires s.mode.Up?
  {
    s.(disk := s.disk.(segs := s.disk.segs + [Seg(s.mode.cur + 1, [], [])], unsure := true),
       book := s.book.(held := s.book.held + [[]]))
  }

  /** The half-born segment removed, and the directory synced. */
  function WithoutNext(s: Sys): Sys
    requires s.disk.segs != []
  {
    var d, b := s.disk, s.book;
    s.(disk := SyncDir(d.(segs := d.segs[..|d.segs| - 1])),
       book := b.(held := if b.held == [] then [] else b.held[..|b.held| - 1], limboHeld := []))
  }

  /** The new segment durable and current; a checkpoint that asked for it pins the snapshot here. */
  function Switched(s: Sys): Sys
    requires s.mode.Up? && s.disk.segs != []
  {
    var m, next := s.mode, Last(s.disk.segs).num;
    s.(disk := SyncDir(s.disk),
       mode := m.(rotation := Still, cur := next,
                  phase := if m.phase.Rotating? then Pinned(m.snap, next) else m.phase),
       book := s.book.(limboHeld := []))
  }

  function PerformRotate(s: Sys, t: Step): Sys
    requires EnabledRotate(s, t)
  {
    var d, m := s.disk, s.mode;
    match t
    case RotateForAppend => s.(mode := m.(rotation := Wanted))
    case SyncOld =>
      s.(disk := d.(segs := SyncLast(d.segs)), mode := m.(rotation := Flushed),
         book := Firm(s.book, s.book.inflight[|Softs(s.book)|..]))
    case FailSyncOld => Aborted(s, false)
    case CreateNext => AddSegment(s).(mode := m.(rotation := Created))
    case FailCreate(present) => if present then Aborted(AddSegment(s), true) else Aborted(s, false)
    case WriteNextHeader(n) =>
      s.(disk := d.(segs := WriteLast(d.segs, Header()[..n])), mode := m.(rotation := Headed))
    case SyncNextHeader => s.(disk := d.(segs := SyncLast(d.segs)), mode := m.(rotation := Born))
    case CleanUp => Aborted(WithoutNext(s), false)
    case FailCleanUp => Aborted(s, true)
    case SyncNext => Switched(s)
    case FailSyncNext => Aborted(s, true)
  }

  // Checkpoint.

  function PerformCkpt(s: Sys, t: Step): Sys
    requires EnabledCkpt(s, t)
  {
    var d, m := s.disk, s.mode;
    match t
    case Pin => s.(mode := m.(rotation := Wanted, phase := Rotating))
    case Keep =>
      s.(disk := if m.damaged || d.dat.Absent? then d
                 else d.(prev := d.dat, prevs := d.prevs + {d.dat}, dat := Absent, dats := d.dats + {Absent}),
         mode := m.(phase := Kept(m.phase.snap, m.phase.boundary)))
    case Replace =>
      s.(disk := d.(dat := Intact(m.phase.snap), dats := d.dats + {Intact(m.phase.snap)}),
         mode := m.(phase := Published(m.phase.snap, m.phase.boundary)))
    case SyncCkpt =>
      s.(disk := SyncDir(d),
         mode := m.(damaged := false, boundary := m.phase.boundary, phase := Reclaiming(m.boundary, false)),
         book := s.book.(limboHeld := [], floor := s.book.ret, ret := m.phase.snap.index))
    case Reclaim =>
      var b := s.book;
      s.(disk := d.(segs := d.segs[1..], limbo := d.limbo + [d.segs[0]]),
         mode := m.(phase := Reclaiming(m.phase.covered, true)),
         book := if b.held == [] then b else b.(held := b.held[1..], limboHeld := b.limboHeld + [b.held[0]]))
    case FinishReclaim =>
      s.(disk := if m.phase.removed then SyncDir(d) else d,
         mode := m.(phase := Resting),
         book := if m.phase.removed then s.book.(limboHeld := []) else s.book)
    case FailCkpt => s.(mode := m.(phase := Resting))
  }

  function PerformWorld(s: Sys, t: Step): Sys
    requires EnabledWorld(s, t)
  {
    match t
    case Crash(c) =>
      var b, d := s.book, s.disk;
      var lost := d.unsure && !c.newest && b.held != [];
      s.(disk := AfterCrash(d, c), mode := Down,
         book := b.(held := (if |b.limboHeld| == |c.back| then Chosen(b.limboHeld, c.back) else []) +
                            (if lost then b.held[..|b.held| - 1] else b.held),
                    limboHeld := [], soft := 0))
    case Kill => s.(mode := Down, book := s.book.(soft := 0))
    case DamageLatest => s.(disk := s.disk.(dat := Damaged, dats := {Damaged}))
  }

  function Perform(s: Sys, t: Step): Sys
    requires Enabled(s, t)
  {
    if EnabledOpen(s, t) then PerformOpen(s, t)
    else if EnabledCommit(s, t) then PerformCommit(s, t)
    else if EnabledRotate(s, t) then PerformRotate(s, t)
    else if EnabledCkpt(s, t) then PerformCkpt(s, t)
    else PerformWorld(s, t)
  }

  // ---- runs ----

  ghost predicate Next(s: Sys, s': Sys) {
    exists t :: Enabled(s, t) && s' == Perform(s, t)
  }

  /** State `k` of a run follows from the one before it by one step. */
  ghost predicate StepAt(run: seq<Sys>, k: nat)
    requires 0 < k < |run|
  {
    Next(run[k - 1], run[k])
  }

  /** Any run at all. */
  ghost predicate IsRun(run: seq<Sys>) {
    && run != []
    && run[0] == Init(run[0].maxSeg)
    && forall k {:trigger StepAt(run, k)} :: 0 < k < |run| ==> StepAt(run, k)
  }

  /**
   * A checkpoint demotes a damaged `snap.dat` over `snap.prev`: it was damaged since the store was opened,
   * so the handle does not know.
   */
  predicate Demotes(s: Sys, t: Step) {
    t.Keep? && s.mode.Up? && !s.mode.damaged && s.disk.dat.Damaged?
  }

  ghost predicate SafeNext(s: Sys, s': Sys) {
    exists t :: Enabled(s, t) && !Demotes(s, t) && s' == Perform(s, t)
  }

  ghost predicate SafeAt(run: seq<Sys>, k: nat)
    requires 0 < k < |run|
  {
    SafeNext(run[k - 1], run[k])
  }

  /** A run in which no checkpoint demotes a damaged `snap.dat`. */
  ghost predicate IsSafeRun(run: seq<Sys>) {
    && run != []
    && run[0] == Init(run[0].maxSeg)
    && forall k {:trigger SafeAt(run, k)} :: 0 < k < |run| ==> SafeAt(run, k)
  }
}
