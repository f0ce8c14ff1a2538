/** What a blob handle reads, and whether an id is ever used twice, over every run of the blob store. */
module BlobRuns {
  import opened Types
  import opened Codec
  import opened BlobLog
  import opened BlobStore

  function Init(): State { State([], None, [], 0, [], []) }

  ghost predicate Next(s: State, s': State) {
    exists t :: Enabled(s, t) && s' == Perform(s, t)
  }

  ghost predicate StepAt(run: seq<State>, k: nat)
    requires 0 < k < |run|
  {
    Next(run[k - 1], run[k])
  }

  ghost predicate IsRun(run: seq<State>) {
    && run != [] && run[0] == Init()
    && forall k {:trigger StepAt(run, k)} :: 0 < k < |run| ==> StepAt(run, k)
  }

  // ---- what the log reflects ----

  /** Event `i` stored `id`, and every compaction since named it live. */
  ghost predicate Kept(past: seq<Event>, i: nat, id: nat) {
    && i < |past| && past[i].Stored? && past[i].blob.id == id
    && forall j :: i < j < |past| && past[j].Compacted? ==> id in past[j].live
  }

  /** Ids are stored in increasing order, so each at most once. */
  ghost predicate Increasing(past: seq<Event>) {
    forall i, j :: 0 <= i < j < |past| && past[i].Stored? && past[j].Stored? ==> past[i].blob.id < past[j].blob.id
  }

  ghost predicate Below(past: seq<Event>, n: nat) {
    forall i :: 0 <= i < |past| && past[i].Stored? ==> past[i].blob.id < n
  }

  /** The index holds exactly what was stored and kept. */
  ghost predicate Indexes(index: map<nat, Slot>, past: seq<Event>) {
    forall id :: id in index <==> exists i: nat :: Kept(past, i, id)
  }

  ghost predicate Reflects(blobs: seq<Blob>, past: seq<Event>) {
    LogOk(blobs, past) && Increasing(past) && Below(past, NextId(blobs)) && Indexes(IndexOf(blobs), past)
  }

  /** So does the log with any of its last `soft` records, and what they did, gone. */
  ghost predicate ReflectsAll(blobs: seq<Blob>, past: seq<Event>, soft: nat) {
    && soft <= |blobs| && soft <= |past|
    && forall k: nat {:trigger Dropped(blobs, k)} :: k <= soft ==> Reflects(Dropped(blobs, k), Dropped(past, k))
  }

  ghost predicate Inv(s: State) {
    && ReflectsAll(s.blobs, s.past, s.soft)
    && (s.torn.Some? ==> Storable(s.torn.value) && s.torn.value.id == NextId(s.blobs) < FENCE_ID)
    && forall i {:trigger s.olders[i]} :: 0 <= i < |s.olders| ==>
      ReflectsAll(s.olders[i].blobs, s.olders[i].past, s.olders[i].soft)
  }

  lemma ReflectsFirm(blobs: seq<Blob>, past: seq<Event>, soft: nat)
    ensures Reflects(blobs, past) ==> ReflectsAll(blobs, past, 0)
    ensures ReflectsAll(blobs, past, soft) ==> Reflects(blobs, past)
  {
    hide Reflects;
    DropNone(blobs);
    DropNone(past);
    if ReflectsAll(blobs, past, soft) {
      assert Reflects(Dropped(blobs, 0), Dropped(past, 0));
    }
  }

  /** Some of the last records gone, and the rest synced. */
  lemma ReflectsDropped(blobs: seq<Blob>, past: seq<Event>, soft: nat, lost: nat)
    requires ReflectsAll(blobs, past, soft) && lost <= soft
    ensures ReflectsAll(Dropped(blobs, lost), Dropped(past, lost), 0)
  {
    hide Reflects, Dropped;
    assert Reflects(Dropped(blobs, lost), Dropped(past, lost));
    ReflectsFirm(Dropped(blobs, lost), Dropped(past, lost), 0);
  }

  lemma ReflectsMore(blobs: seq<Blob>, past: seq<Event>, soft: nat, b: Blob)
    requires ReflectsAll(blobs, past, soft) && Storable(b) && b.id == NextId(blobs) < FENCE_ID
    ensures ReflectsAll(blobs + [b], past + [Stored(b)], soft + 1) && ReflectsAll(blobs + [b], past + [Stored(b)], 0)
  {
    hide Reflects, Dropped, Storable, NextId;
    var blobs', past' := blobs + [b], past + [Stored(b)];
    ReflectsFirm(blobs, past, soft);
    StoreReflects(blobs, past, b);
    ReflectsFirm(blobs', past', 0);
    forall k: nat | k <= soft + 1 ensures Reflects(Dropped(blobs', k), Dropped(past', k)) {
      if k == 0 {
        DropNone(blobs');
        DropNone(past');
      } else {
        DropMore(blobs, b, k - 1);
        DropMore(past, Stored(b), k - 1);
        assert Reflects(Dropped(blobs, k - 1), Dropped(past, k - 1));
      }
    }
  }

  lemma KeptNext(past: seq<Event>, e: Event, id: nat)
    ensures (exists i: nat :: Kept(past + [e], i, id)) <==>
      if e.Stored? then e.blob.id == id || exists i: nat :: Kept(past, i, id)
      else id in e.live && exists i: nat :: Kept(past, i, id)
  {
    var all := past + [e];
    if e.Stored? && e.blob.id == id {
      assert Kept(all, |past|, id);
    }
    if i: nat :| Kept(past, i, id) && (e.Stored? || id in e.live) {
      assert Kept(all, i, id);
    }
    if i: nat :| Kept(all, i, id) {
      assert i < |past| ==> Kept(past, i, id) by {
        assert forall j :: 0 <= j < |past| ==> all[j] == past[j];
      }
      assert all[|past|] == e;
    }
  }

  lemma PastNext(past: seq<Event>, e: Event, n: nat)
    requires Increasing(past) && Below(past, n) && (e.Stored? ==> e.blob.id == n)
    ensures Increasing(past + [e]) && Below(past + [e], if e.Stored? then n + 1 else n)
  {
  }

  lemma StoreReflects(blobs: seq<Blob>, past: seq<Event>, b: Blob)
    requires Reflects(blobs, past) && Storable(b) && b.id == NextId(blobs) < FENCE_ID
    ensures Reflects(blobs + [b], past + [Stored(b)])
  {
    hide Storable, LogOk, IndexOf, NextId, Kept, Increasing, Below;
    StoreOk(blobs, past, b);
    PastNext(past, Stored(b), b.id);
    forall id ensures id in IndexOf(blobs + [b]) <==> exists i: nat :: Kept(past + [Stored(b)], i, id) {
      KeptNext(past, Stored(b), id);
    }
  }

  lemma CompactReflects(blobs: seq<Blob>, past: seq<Event>, live: set<nat>)
    requires Reflects(blobs, past) && NextId(blobs) < U64_LIMIT
    ensures Reflects(Live(blobs, live) + [Fence(NextId(blobs))], past + [Compacted(live)])
  {
    hide Storable, LogOk, IndexOf, NextId, Kept, Live, Fence, Increasing, Below;
    CompactOk(blobs, past, live);
    PastNext(past, Compacted(live), NextId(blobs));
    var index' := IndexOf(Live(blobs, live) + [Fence(NextId(blobs))]);
    forall id ensures id in index' <==> exists i: nat :: Kept(past + [Compacted(live)], i, id) {
      KeptNext(past, Compacted(live), id);
    }
  }

  lemma StepKeeps(s: State, t: Step)
    requires Inv(s) && Enabled(s, t)
    ensures Inv(Perform(s, t))
  {
    hide ReflectsAll, Reflects, IndexOf, NextId, Live, Fence, Dropped;
    ReflectsFirm(s.blobs, s.past, s.soft);
    match t {
      case Put(value) => ReflectsMore(s.blobs, s.past, s.soft, NextBlob(s, value));
      case FailedPut =>
      case PoisonPut(value) =>
      case Compact(live, synced) =>
        CompactReflects(s.blobs, s.past, live);
        ReflectsFirm(Perform(s, t).blobs, Perform(s, t).past, 0);
      case Reopen(whole, cut) =>
        if s.torn.Some? { ReflectsMore(s.blobs, s.past, s.soft, s.torn.value); }
      case PowerCut(log, lost) => PowerCutKeeps(s, log, lost);
    }
  }

  lemma PowerCutKeeps(s: State, log: nat, lost: nat)
    requires Inv(s) && Enabled(s, PowerCut(log, lost))
    ensures Inv(Perform(s, PowerCut(log, lost)))
  {
    hide ReflectsAll, NextId, Dropped;
    if log < |s.olders| {
      var o := s.olders[log];
      ReflectsDropped(o.blobs, o.past, o.soft, lost);
    } else {
      if s.torn.Some? { ReflectsMore(s.blobs, s.past, s.soft, s.torn.value); }
      ReflectsDropped(Whole(s.blobs, s.torn), WholePast(s.past, s.torn), Loose(s.soft, s.torn), lost);
    }
  }

  lemma {:induction false} InvHolds(run: seq<State>, k: nat)
    requires IsRun(run) && k < |run|
    ensures Inv(run[k])
  {
    hide Enabled, Perform;
    if k > 0 {
      hide Inv;
      InvHolds(run, k - 1);
      assert StepAt(run, k);
      var t :| Enabled(run[k - 1], t) && run[k] == Perform(run[k - 1], t);
      StepKeeps(run[k - 1], t);
    } else {
      InitHolds();
    }
  }

  lemma InitHolds()
    ensures Inv(Init())
  {
    assert forall i: nat, id: nat :: !Kept([], i, id);
    assert Reflects([], []);
    ReflectsFirm([], [], 0);
  }

  // ---- what reads find ----

  /** The blob a log's index leads to under `id`. */
  ghost predicate ReadsAs(blobs: seq<Blob>, id: nat, b: Blob)
    requires AllStorable(blobs) && id in IndexOf(blobs)
  {
    var at := IndexOf(blobs)[id].offset;
    at <= |Log(blobs)| && ReadRecord(Log(blobs)[at..]).Some? && ReadRecord(Log(blobs)[at..]).value.0 == b
  }

  lemma {:induction false} WrittenAt(past: seq<Event>, i: nat)
    requires Increasing(past) && i < |past| && past[i].Stored?
    ensures past[i].blob.id in Written(past) && Written(past)[past[i].blob.id] == past[i].blob.payload
  {
    var n := |past| - 1;
    if i < n {
      assert forall j :: 0 <= j < n ==> past[..n][j] == past[j];
      WrittenAt(past[..n], i);
    }
  }

  /**
   * Over every run: the blob an event stored can be read back, with its bytes, exactly when every
   * compaction the log has seen since named its id live; no id leads anywhere else.
   */
  lemma BlobsReadBackExactly(run: seq<State>, k: nat, i: nat)
    requires IsRun(run) && k < |run| && i < |run[k].past| && run[k].past[i].Stored?
    ensures var s, b := run[k], run[k].past[i].blob;
      && AllStorable(s.blobs)
      && (b.id in IndexOf(s.blobs) <==> Kept(s.past, i, b.id))
      && (b.id in IndexOf(s.blobs) ==> ReadsAs(s.blobs, b.id, b))
  {
    hide IsRun, IndexOf, NextId, Storable, Log, ReadRecord, Faithful, Written, ReflectsAll;
    InvHolds(run, k);
    var s, b := run[k], run[k].past[i].blob;
    ReflectsFirm(s.blobs, s.past, s.soft);
    if j: nat :| Kept(s.past, j, b.id) {
      assert i == j;
    }
    WrittenAt(s.past, i);
    if b.id in IndexOf(s.blobs) {
      ReadAtSlot(s.blobs, Written(s.past), Log(s.blobs), b.id);
      BlobIs(b, Written(s.past)[b.id]);
    }
  }

  lemma BlobIs(b: Blob, payload: Bytes)
    requires payload == b.payload
    ensures Blob(b.id, payload) == b
  {
  }

  // ---- ids ----

  /** No blob was handed out since the compaction that replaced log `log`, whose directory sync failed. */
  predicate NoPutSince(s: State, log: nat) {
    log < |s.olders| ==> |s.handed| == s.olders[log].given
  }

  predicate SafeStep(s: State, t: Step) { t.PowerCut? ==> NoPutSince(s, t.log) }

  ghost predicate SafeNext(s: State, s': State) {
    exists t :: Enabled(s, t) && SafeStep(s, t) && s' == Perform(s, t)
  }

  ghost predicate SafeAt(run: seq<State>, k: nat)
    requires 0 < k < |run|
  {
    SafeNext(run[k - 1], run[k])
  }

  /** A run in which no power cut brings back a log that puts have been made since. */
  ghost predicate IsSafeRun(run: seq<State>) {
    && run != [] && run[0] == Init()
    && forall k {:trigger SafeAt(run, k)} :: 0 < k < |run| ==> SafeAt(run, k)
  }

  lemma SafeRunIsRun(run: seq<State>)
    requires IsSafeRun(run)
    ensures IsRun(run)
  {
    hide Enabled, Perform, SafeStep;
    forall k | 0 < k < |run| ensures StepAt(run, k) {
      assert SafeAt(run, k);
    }
  }

  ghost predicate Ascending(handed: seq<Blob>) {
    forall i, j :: 0 <= i < j < |handed| ==> handed[i].id < handed[j].id
  }

  ghost predicate AllBelow(handed: seq<Blob>, n: nat) {
    forall i :: 0 <= i < |handed| ==> handed[i].id < n
  }

  /** The first `n` handles are of records that were synced. */
  ghost predicate Firmly(handed: seq<Blob>, n: nat, blobs: seq<Blob>, past: seq<Event>, soft: nat) {
    && n <= |handed| && soft <= |blobs| && soft <= |past|
    && forall i {:trigger handed[i]} :: 0 <= i < n ==>
      handed[i].id < NextId(Dropped(blobs, soft)) && Stored(handed[i]) in Dropped(past, soft)
  }

  /** The first `given` handles are firmly within the log, the others past it. */
  ghost predicate Divides(o: Older, handed: seq<Blob>, next: nat) {
    && Firmly(handed, o.given, o.blobs, o.past, o.soft) && NextId(o.blobs) <= next
    && forall i :: o.given <= i < |handed| ==> NextId(o.blobs) <= handed[i].id
  }

  ghost predicate IdsInv(s: State) {
    && Ascending(s.handed) && AllBelow(s.handed, FENCE_ID)
    && Firmly(s.handed, |s.handed|, s.blobs, s.past, s.soft)
    && forall i {:trigger s.olders[i]} :: 0 <= i < |s.olders| ==> Divides(s.olders[i], s.handed, NextId(s.blobs))
  }

  lemma NextAfter(blobs: seq<Blob>, b: Blob)
    requires b.id == NextId(blobs) != FENCE_ID
    ensures NextId(blobs + [b]) == b.id + 1
  {
    assert (blobs + [b])[..|blobs|] == blobs;
  }

  lemma {:induction false} NextIdGrows(a: seq<Blob>, b: seq<Blob>)
    requires a <= b
    ensures NextId(a) <= NextId(b)
    decreases |b|
  {
    if a != b {
      NextIdGrows(a, b[..|b| - 1]);
    } else {
      assert a == b;
    }
  }

  lemma DropOrder<T>(xs: seq<T>, n: nat, m: nat)
    requires n <= m <= |xs|
    ensures Dropped(xs, m) <= Dropped(xs, n)
  {
  }

  /** Losing some of what was not synced, or syncing it, leaves every handle where it was. */
  lemma FirmlyDropped(handed: seq<Blob>, n: nat, blobs: seq<Blob>, past: seq<Event>, soft: nat, lost: nat)
    requires Firmly(handed, n, blobs, past, soft) && lost <= soft
    ensures Firmly(handed, n, Dropped(blobs, lost), Dropped(past, lost), 0)
  {
    hide NextId, Dropped;
    DropNone(Dropped(blobs, lost));
    DropNone(Dropped(past, lost));
    DropOrder(blobs, lost, soft);
    DropOrder(past, lost, soft);
    NextIdGrows(Dropped(blobs, soft), Dropped(blobs, lost));
    forall i | 0 <= i < n ensures Stored(handed[i]) in Dropped(past, lost) {
      assert Stored(handed[i]) in Dropped(past, soft);
    }
  }

  lemma FirmlyMore(handed: seq<Blob>, n: nat, blobs: seq<Blob>, past: seq<Event>, soft: nat, b: Blob)
    requires Firmly(handed, n, blobs, past, soft)
    ensures Firmly(handed, n, blobs + [b], past + [Stored(b)], soft + 1)
  {
    hide NextId, Dropped;
    DropMore(blobs, b, soft);
    DropMore(past, Stored(b), soft);
  }

  lemma FirmlySynced(handed: seq<Blob>, n: nat, blobs: seq<Blob>, past: seq<Event>, soft: nat)
    requires Firmly(handed, n, blobs, past, soft)
    ensures Firmly(handed, n, blobs, past, 0) && (forall i :: 0 <= i < n ==> handed[i].id < NextId(blobs))
    ensures forall i :: 0 <= i < n ==> Stored(handed[i]) in past
  {
    hide NextId, Dropped;
    DropNone(blobs);
    DropNone(past);
    FirmlyDropped(handed, n, blobs, past, soft, 0);
    forall i | 0 <= i < n ensures handed[i].id < NextId(blobs) && Stored(handed[i]) in past {
      assert handed[i].id < NextId(Dropped(blobs, 0));
    }
  }

  lemma PutIds(s: State, value: Bytes)
    requires IdsInv(s) && Enabled(s, Step.Put(value))
    ensures IdsInv(Perform(s, Step.Put(value)))
  {
    hide NextId, Dropped, Firmly;
    var s', b := Perform(s, Step.Put(value)), NextBlob(s, value);
    NextAfter(s.blobs, b);
    FirmlySynced(s.handed, |s.handed|, s.blobs, s.past, s.soft);
    FirmlyHands(s.handed, s.blobs, s.past, b);
    assert forall i :: 0 <= i < |s.handed| ==> s'.handed[i] == s.handed[i];
    forall i | 0 <= i < |s.olders| ensures Divides(s'.olders[i], s'.handed, NextId(s'.blobs)) {
      var o := s.olders[i];
      assert Divides(o, s.handed, NextId(s.blobs));
      FirmlyLonger(s.handed, o.given, o.blobs, o.past, o.soft, b);
    }
  }

  lemma FirmlyHands(handed: seq<Blob>, blobs: seq<Blob>, past: seq<Event>, b: Blob)
    requires Firmly(handed, |handed|, blobs, past, 0) && b.id == NextId(blobs) && NextId(blobs + [b]) == b.id + 1
    ensures Firmly(handed + [b], |handed| + 1, blobs + [b], past + [Stored(b)], 0)
  {
    hide NextId, Dropped;
    DropNone(blobs);
    DropNone(past);
    DropNone(blobs + [b]);
    DropNone(past + [Stored(b)]);
    var handed', past' := handed + [b], past + [Stored(b)];
    assert past'[|past|] == Stored(b);
    forall i | 0 <= i < |handed'| ensures handed'[i].id < NextId(blobs + [b]) && Stored(handed'[i]) in past' {
      if i < |handed| {
        assert handed'[i] == handed[i] && Stored(handed[i]) in past;
      }
    }
  }

  lemma FirmlyLonger(handed: seq<Blob>, n: nat, blobs: seq<Blob>, past: seq<Event>, soft: nat, b: Blob)
    requires Firmly(handed, n, blobs, past, soft)
    ensures Firmly(handed + [b], n, blobs, past, soft)
  {
    hide NextId, Dropped;
    assert forall i :: 0 <= i < n ==> (handed + [b])[i] == handed[i];
  }

  lemma CompactIds(s: State, live: set<nat>, synced: bool)
    requires Inv(s) && IdsInv(s) && Enabled(s, Compact(live, synced))
    ensures IdsInv(Perform(s, Compact(live, synced)))
  {
    hide NextId, Live, Fence, IndexOf, LogOk, Indexes, Increasing, Below, Log, Record, Dropped, Firmly, ReflectsAll;
    var s' := Perform(s, Compact(live, synced));
    ReflectsFirm(s.blobs, s.past, s.soft);
    CompactOk(s.blobs, s.past, live);
    assert NextId(s'.blobs) == NextId(s.blobs);
    FirmlyCompacts(s.handed, s.blobs, s.past, s.soft, s'.blobs, Compacted(live));
    forall i | 0 <= i < |s'.olders| ensures Divides(s'.olders[i], s'.handed, NextId(s'.blobs)) {
      if i < |s.olders| {
        assert Divides(s.olders[i], s.handed, NextId(s.blobs));
      }
    }
  }

  lemma FirmlyCompacts(handed: seq<Blob>, blobs: seq<Blob>, past: seq<Event>, soft: nat, blobs': seq<Blob>, e: Event)
    requires Firmly(handed, |handed|, blobs, past, soft) && NextId(blobs') == NextId(blobs)
    ensures Firmly(handed, |handed|, blobs', past + [e], 0)
  {
    hide NextId, Dropped;
    FirmlySynced(handed, |handed|, blobs, past, soft);
    DropNone(blobs');
    DropNone(past + [e]);
  }

  lemma ReopenIds(s: State, whole: bool, cut: bool)
    requires Inv(s) && IdsInv(s)
    ensures IdsInv(Reopened(s, whole, cut))
  {
    hide NextId, ReflectsAll, Dropped, Firmly;
    var s' := Reopened(s, whole, cut);
    FirmlySynced(s.handed, |s.handed|, s.blobs, s.past, s.soft);
    if s.torn.Some? {
      NextAfter(s.blobs, s.torn.value);
      FirmlyMore(s.handed, |s.handed|, s.blobs, s.past, s.soft, s.torn.value);
    }
    forall i | 0 <= i < |s.olders| ensures Divides(s'.olders[i], s'.handed, NextId(s'.blobs)) {
      assert Divides(s.olders[i], s.handed, NextId(s.blobs));
    }
  }

  lemma PowerCutIds(s: State, log: nat, lost: nat)
    requires IdsInv(s) && Enabled(s, PowerCut(log, lost)) && NoPutSince(s, log)
    ensures IdsInv(Perform(s, PowerCut(log, lost)))
  {
    hide NextId, Dropped, Firmly;
    if log < |s.olders| {
      var o := s.olders[log];
      assert Divides(o, s.handed, NextId(s.blobs));
      FirmlyDropped(s.handed, |s.handed|, o.blobs, o.past, o.soft, lost);
    } else {
      if s.torn.Some? {
        FirmlyMore(s.handed, |s.handed|, s.blobs, s.past, s.soft, s.torn.value);
      }
      var blobs, past := Whole(s.blobs, s.torn), WholePast(s.past, s.torn);
      FirmlyDropped(s.handed, |s.handed|, blobs, past, Loose(s.soft, s.torn), lost);
    }
  }

  lemma SafeKeeps(s: State, t: Step)
    requires Inv(s) && IdsInv(s) && Enabled(s, t) && SafeStep(s, t)
    ensures IdsInv(Perform(s, t))
  {
    hide Inv, NextId, Live, Fence, Reopened, Dropped, Firmly;
    match t {
      case Put(value) => PutIds(s, value);
      case FailedPut => FirmlySynced(s.handed, |s.handed|, s.blobs, s.past, s.soft);
      case PoisonPut(value) =>
      case Compact(live, synced) => CompactIds(s, live, synced);
      case Reopen(whole, cut) => ReopenIds(s, whole, cut);
      case PowerCut(log, lost) => PowerCutIds(s, log, lost);
    }
  }

  lemma {:induction false} SafeInvHolds(run: seq<State>, k: nat)
    requires IsSafeRun(run) && k < |run|
    ensures Inv(run[k]) && IdsInv(run[k])
  {
    hide Inv, Enabled, Perform, SafeStep;
    SafeRunIsRun(run);
    InvHolds(run, k);
    if k == 0 {
      assert Firmly([], 0, [], [], 0);
    } else {
      hide IdsInv;
      SafeInvHolds(run, k - 1);
      assert SafeAt(run, k);
      var t :| Enabled(run[k - 1], t) && SafeStep(run[k - 1], t) && run[k] == Perform(run[k - 1], t);
      SafeKeeps(run[k - 1], t);
    }
  }

  /**
   * Handles over every such run: ids are handed out in increasing order, so never twice; and a handle
   * reads back its own blob exactly when every compaction the log has seen since named its id live.
   */
  lemma HandlesReadBack(run: seq<State>, k: nat, i: nat) returns (j: nat)
    requires IsSafeRun(run) && k < |run| && i < |run[k].handed|
    ensures Ascending(run[k].handed)
    ensures var s, b := run[k], run[k].handed[i];
      && j < |s.past| && s.past[j] == Stored(b) && AllStorable(s.blobs)
      && (b.id in IndexOf(s.blobs) <==> Kept(s.past, j, b.id))
      && (b.id in IndexOf(s.blobs) ==> ReadsAs(s.blobs, b.id, b))
  {
    hide IsRun, Inv, IndexOf, ReadsAs, Kept, NextId, Firmly;
    SafeRunIsRun(run);
    SafeInvHolds(run, k);
    FirmlySynced(run[k].handed, |run[k].handed|, run[k].blobs, run[k].past, run[k].soft);
    assert Stored(run[k].handed[i]) in run[k].past;
    j :| 0 <= j < |run[k].past| && run[k].past[j] == Stored(run[k].handed[i]);
    BlobsReadBackExactly(run, k, j);
  }

  // ---- when an id does come back ----

  /** The store after `n` more puts, as far as ids last. */
  function AfterPuts(s: State, n: nat): State {
    if n == 0 then s
    else
      var p := AfterPuts(s, n - 1);
      if Enabled(p, Step.Put([])) then Perform(p, Step.Put([])) else p
  }

  ghost predicate Distinct(handed: seq<Blob>) {
    forall i, j :: 0 <= i < j < |handed| ==> handed[i].id != handed[j].id
  }

  lemma {:induction false} PutsKeep(s: State, n: nat)
    requires Ascending(s.handed) && AllBelow(s.handed, NextId(s.blobs))
    ensures Ascending(AfterPuts(s, n).handed) && AllBelow(AfterPuts(s, n).handed, NextId(AfterPuts(s, n).blobs))
  {
    hide NextId;
    if n > 0 {
      PutsKeep(s, n - 1);
      var p := AfterPuts(s, n - 1);
      if Enabled(p, Step.Put([])) {
        NextAfter(p.blobs, NextBlob(p, []));
      }
    }
  }

  lemma {:induction false} PutsCount(s: State, n: nat)
    requires s.torn.None? && NextId(s.blobs) + n <= FENCE_ID
    ensures var p := AfterPuts(s, n);
      && p.torn.None? && NextId(p.blobs) == NextId(s.blobs) + n
      && |p.handed| == |s.handed| + n && s.handed <= p.handed
      && (n > 0 ==> p.handed[|p.handed| - 1].id == NextId(s.blobs) + n - 1)
  {
    hide NextId;
    if n > 0 {
      PutsCount(s, n - 1);
      var p := AfterPuts(s, n - 1);
      NextAfter(p.blobs, NextBlob(p, []));
    }
  }

  /** Puts made next give out an id again exactly when some handle's id is not below the next one. */
  lemma ReusesExactlyWhen(s: State)
    requires s.torn.None? && Ascending(s.handed) && AllBelow(s.handed, FENCE_ID)
    ensures (exists n: nat :: !Distinct(AfterPuts(s, n).handed)) <==>
      exists i :: 0 <= i < |s.handed| && s.handed[i].id >= NextId(s.blobs)
  {
    hide NextId, AfterPuts;
    if i :| 0 <= i < |s.handed| && s.handed[i].id >= NextId(s.blobs) {
      var again := s.handed[i].id;
      var n := again - NextId(s.blobs) + 1;
      PutsCount(s, n);
      var p := AfterPuts(s, n);
      assert p.handed[i] == s.handed[i] && p.handed[|p.handed| - 1].id == again;
      assert !Distinct(p.handed);
    } else {
      forall n: nat ensures Distinct(AfterPuts(s, n).handed) {
        PutsKeep(s, n);
      }
    }
  }

  /**
   * The exact condition for a power cut: it makes ids come back if and only if it undoes a compaction
   * whose directory sync failed, and a blob was handed out since. Losing unsynced records does not.
   */
  lemma IdsComeBackExactlyWhen(run: seq<State>, k: nat, log: nat, lost: nat)
    requires IsSafeRun(run) && k < |run| && Enabled(run[k], PowerCut(log, lost))
    ensures (exists n: nat :: !Distinct(AfterPuts(Perform(run[k], PowerCut(log, lost)), n).handed)) <==>
      !NoPutSince(run[k], log)
  {
    hide Inv, NextId, AfterPuts, Firmly, Dropped;
    SafeInvHolds(run, k);
    var s := run[k];
    var s' := Perform(s, PowerCut(log, lost));
    ReusesExactlyWhen(s');
    if NoPutSince(s, log) {
      PowerCutIds(s, log, lost);
      FirmlySynced(s'.handed, |s'.handed|, s'.blobs, s'.past, s'.soft);
    } else {
      var o := s.olders[log];
      assert Divides(o, s.handed, NextId(s.blobs));
      GivenWithin(o, s.handed);
      DropOrder(o.blobs, 0, lost);
      DropNone(o.blobs);
      NextIdGrows(Dropped(o.blobs, lost), o.blobs);
      assert s'.handed[o.given].id >= NextId(s'.blobs);
    }
  }

  lemma GivenWithin(o: Older, handed: seq<Blob>)
    requires Firmly(handed, o.given, o.blobs, o.past, o.soft)
    ensures o.given <= |handed| && o.soft <= |o.blobs|
  {
    hide NextId, Dropped;
  }

  // ---- a damaged log ----

  /**
   * Media damage within four consecutive bytes of a record's payload, found by the next `open`: the log is
   * cut there, whatever followed, and ids come back if and only if some id handed out is at or above the
   * next id of what is left.
   */
  lemma DamagedReopenReusesExactlyWhen(run: seq<State>, k: nat, before: seq<Blob>, b: Blob, i: nat, j: nat, v: Bytes,
                                       rest: Bytes)
    requires IsSafeRun(run) && k < |run| && before + [b] <= run[k].blobs && AllStorable(before) && Storable(b)
    requires i <= j <= |b.payload| && j - i == |v| <= 4 && v != b.payload[i..j]
    ensures var bytes := Log(before) + (DamagedRecordOf(b, i, j, v) + rest);
      var s := State(Scan(bytes), None, run[k].past, 0, [], run[k].handed);
      && Scan(bytes) == before && ScanEnd(bytes) == |Log(before)|
      && ((exists n: nat :: !Distinct(AfterPuts(s, n).handed)) <==>
            exists x :: 0 <= x < |s.handed| && s.handed[x].id >= NextId(before))
  {
    hide Inv, NextId, AfterPuts, Firmly, Dropped, Log, Scan, ScanEnd, DamagedRecordOf, Storable;
    SafeInvHolds(run, k);
    DamagedLogIsRefused(before, b, i, j, v, rest);
    ReusesExactlyWhen(State(before, None, run[k].past, 0, [], run[k].handed));
  }

  /** Every blob's id is at or above the next id of what comes before it. */
  ghost predicate Rising(blobs: seq<Blob>) {
    forall m {:trigger blobs[m]} :: 0 <= m < |blobs| && blobs[m].id != FENCE_ID ==> NextId(blobs[..m]) <= blobs[m].id
  }

  ghost predicate RisingInv(s: State) {
    Rising(s.blobs) && forall i {:trigger s.olders[i]} :: 0 <= i < |s.olders| ==> Rising(s.olders[i].blobs)
  }

  lemma RisingMore(blobs: seq<Blob>, b: Blob)
    requires Rising(blobs) && (b.id != FENCE_ID ==> NextId(blobs) <= b.id)
    ensures Rising(blobs + [b])
  {
    hide NextId;
    var all := blobs + [b];
    forall m | 0 <= m < |all| && all[m].id != FENCE_ID ensures NextId(all[..m]) <= all[m].id {
      assert all[..m] == blobs[..m];
      assert blobs[..|blobs|] == blobs;
      assert m < |blobs| ==> all[m] == blobs[m];
    }
  }

  lemma RisingDropped(blobs: seq<Blob>, n: nat)
    requires Rising(blobs)
    ensures Rising(Dropped(blobs, n))
  {
    hide NextId;
    var part := Dropped(blobs, n);
    forall m | 0 <= m < |part| && part[m].id != FENCE_ID ensures NextId(part[..m]) <= part[m].id {
      assert part[..m] == blobs[..m] && part[m] == blobs[m];
    }
  }

  lemma {:induction false} RisingLive(blobs: seq<Blob>, live: set<nat>)
    requires Rising(blobs)
    ensures Rising(Live(blobs, live)) && NextId(Live(blobs, live)) <= NextId(blobs)
  {
    hide Rising;
    if blobs == [] {
      assert Rising([]) by { NoneRising(); }
    } else {
      var n := |blobs| - 1;
      var init, b := blobs[..n], blobs[n];
      LastRising(blobs);
      RisingLive(init, live);
      if b.id != FENCE_ID && b.id in live {
        var kept := Live(init, live);
        RisingMore(kept, b);
        assert (kept + [b])[..|kept|] == kept;
      }
    }
  }

  lemma NoneRising()
    ensures Rising([])
  {
  }

  lemma LastRising(blobs: seq<Blob>)
    requires Rising(blobs) && blobs != []
    ensures var n := |blobs| - 1;
      Rising(blobs[..n]) && (blobs[n].id != FENCE_ID ==> NextId(blobs[..n]) <= blobs[n].id)
  {
    hide NextId;
    RisingDropped(blobs, 1);
  }

  lemma RisingKeeps(s: State, t: Step)
    requires RisingInv(s) && Inv(s) && Enabled(s, t)
    ensures RisingInv(Perform(s, t))
  {
    hide Rising, NextId, Live, Dropped, ReflectsAll;
    match t {
      case Put(value) => RisingMore(s.blobs, NextBlob(s, value));
      case Compact(live, synced) =>
        RisingLive(s.blobs, live);
        RisingMore(Live(s.blobs, live), Fence(NextId(s.blobs)));
      case Reopen(whole, cut) =>
        if s.torn.Some? { RisingMore(s.blobs, s.torn.value); }
      case PowerCut(log, lost) =>
        if s.torn.Some? { RisingMore(s.blobs, s.torn.value); }
        if log < |s.olders| {
          RisingDropped(s.olders[log].blobs, lost);
        } else {
          RisingDropped(Whole(s.blobs, s.torn), lost);
        }
      case FailedPut =>
      case PoisonPut(value) =>
    }
  }

  lemma {:induction false} RisingHolds(run: seq<State>, k: nat)
    requires IsRun(run) && k < |run|
    ensures RisingInv(run[k])
  {
    hide RisingInv, Inv, Enabled, Perform;
    if k == 0 {
      assert RisingInv(Init()) by { NoneRising(); InitRises(); }
    } else {
      RisingHolds(run, k - 1);
      InvHolds(run, k - 1);
      assert StepAt(run, k);
      var t :| Enabled(run[k - 1], t) && run[k] == Perform(run[k - 1], t);
      RisingKeeps(run[k - 1], t);
    }
  }

  lemma InitRises()
    ensures RisingInv(Init())
  {
  }

  /** So damage to the record of any blob handed out brings its id back, whatever else the log holds. */
  lemma DamagedHandleComesBack(run: seq<State>, k: nat, before: seq<Blob>, b: Blob) returns (n: nat)
    requires IsSafeRun(run) && k < |run| && before + [b] <= run[k].blobs && b.id != FENCE_ID && b in run[k].handed
    ensures !Distinct(AfterPuts(State(before, None, run[k].past, 0, [], run[k].handed), n).handed)
  {
    hide Inv, NextId, AfterPuts, Firmly, Dropped;
    SafeRunIsRun(run);
    SafeInvHolds(run, k);
    RisingHolds(run, k);
    var blobs, s := run[k].blobs, State(before, None, run[k].past, 0, [], run[k].handed);
    assert blobs[..|before|] == before && blobs[|before|] == b;
    ReusesExactlyWhen(s);
    var i :| 0 <= i < |s.handed| && s.handed[i] == b;
    assert s.handed[i].id >= NextId(before);
    n :| !Distinct(AfterPuts(s, n).handed);
  }

  /** A fence before the damage keeps every id below its mark from coming back. */
  lemma {:induction false} FenceProtects(before: seq<Blob>, i: nat, mark: nat)
    requires i < |before| && mark < U64_LIMIT && before[i] == Fence(mark)
    ensures mark <= NextId(before)
  {
    var n := |before| - 1;
    if i < n {
      FenceProtects(before[..n], i, mark);
    }
  }

  /** It happens: the only blob's payload is damaged, and the next put is given its id. */
  lemma DamageReusesAnId(a: Bytes, c: Bytes, x: Byte)
    requires 0 < |a| < U64_LIMIT && |c| < U64_LIMIT && x != a[0]
    ensures var s := Perform(Init(), Step.Put(a));
      && s.handed == [Blob(0, a)] && AllStorable(s.blobs)
      && var bytes := Log([]) + (DamagedRecordOf(Blob(0, a), 0, 1, [x]) + []);
         var t := State(Scan(bytes), None, s.past, 0, [], s.handed);
         Enabled(t, Step.Put(c)) && Perform(t, Step.Put(c)).handed == [Blob(0, a), Blob(0, c)]
  {
    hide Log, Scan, ScanEnd, DamagedRecordOf, NextId;
    NextOf0();
    assert [x] != a[0..1];
    DamagedLogIsRefused([], Blob(0, a), 0, 1, [x], []);
  }

  lemma Extend(run: seq<State>, t: Step)
    requires IsRun(run) && Enabled(run[|run| - 1], t)
    ensures IsRun(run + [Perform(run[|run| - 1], t)])
  {
    hide Enabled, Perform;
    var run' := run + [Perform(run[|run| - 1], t)];
    forall k | 0 < k < |run'| ensures StepAt(run', k) {
      if k < |run| {
        assert StepAt(run, k);
      }
    }
  }

  /**
   * It happens: a blob is put after a compaction whose directory sync failed, a power cut undoes the
   * compaction, and the next put is given the same id.
   */
  lemma UndoneCompactionReusesAnId(a: Bytes, b: Bytes, c: Bytes) returns (run: seq<State>)
    requires |a| < U64_LIMIT && |b| < U64_LIMIT && |c| < U64_LIMIT
    ensures IsRun(run) && run[|run| - 1].handed == [Blob(0, a), Blob(1, b), Blob(1, c)]
  {
    hide IsRun, NextId, Live, Fence, Inv;
    var s0 := Init();
    run := [s0];
    assert IsRun(run) by { OneState(); }
    NextOf0();
    Extend(run, Step.Put(a));
    var s1 := Perform(s0, Step.Put(a));
    run := run + [s1];
    NextAfter(s0.blobs, Blob(0, a));
    Extend(run, Compact({}, false));
    var s2 := Perform(s1, Compact({}, false));
    CompactNext(run, s1);
    run := run + [s2];
    Extend(run, Step.Put(b));
    var s3 := Perform(s2, Step.Put(b));
    run := run + [s3];
    DropNone(s1.blobs);
    Extend(run, PowerCut(0, 0));
    var s4 := Perform(s3, PowerCut(0, 0));
    run := run + [s4];
    Extend(run, Step.Put(c));
    run := run + [Perform(s4, Step.Put(c))];
  }

  lemma OneState()
    ensures IsRun([Init()])
  {
  }

  lemma NextOf0()
    ensures NextId([]) == 0
  {
  }

  lemma CompactNext(run: seq<State>, s: State)
    requires IsRun(run) && s == run[|run| - 1] && Enabled(s, Compact({}, false))
    ensures NextId(Perform(s, Compact({}, false)).blobs) == NextId(s.blobs)
  {
    hide NextId, Live, Fence, IndexOf, LogOk, Log, Record, IsRun, ReflectsAll;
    LastOf(run);
    InvHolds(run, |run| - 1);
    ReflectsFirm(s.blobs, s.past, s.soft);
    CompactOk(s.blobs, s.past, {});
  }

  lemma LastOf(run: seq<State>)
    requires IsRun(run)
    ensures run != []
  {
  }
}
