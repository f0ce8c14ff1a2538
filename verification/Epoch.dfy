/**
 * Epoch-based reclamation with every load, lock and push as its own step: readers, publishers and
 * reclaimers interleave freely. Each reader, publisher and reclaimer is one call.
 */
module Epoch {
  import opened Types

  /** A critical section: the epoch loaded, then registered, then the current version cloned. */
  datatype Reader = Loaded(entry: nat) | Registered(entry: nat) | Holding(entry: nat, version: nat) | Exited

  /** A publish: the old version swapped out, the epoch advanced, the old version queued. */
  datatype Publisher = Swapped(was: nat) | Tagged(was: nat, tag: nat) | Queued

  /**
   * A reclaim: the least active entry sampled (none if no reader was active), then the queue drained.
   * `seen` is who was registered at the sample.
   */
  datatype Reclaimer = Sampled(min: Option<nat>, seen: set<nat>) | Drained

  datatype Retiree = Retiree(tag: nat, version: nat)

  datatype State = State(
    epoch: nat,
    /** The entry epochs of registered readers; their order never matters. */
    active: multiset<nat>,
    retired: seq<Retiree>,
    /** The current version; versions are numbered in the order they became current. */
    current: nat,
    readers: seq<Reader>, publishers: seq<Publisher>, reclaimers: seq<Reclaimer>,
    freed: set<nat>)

  function Init(): State { State(0, multiset{}, [], 0, [], [], [], {}) }

  predicate IsLeast(xs: multiset<nat>, m: Option<nat>) {
    match m
    case None => xs == multiset{}
    case Some(x) => x in xs && forall y :: y in xs ==> x <= y
  }

  /** How many of the queue's leading retirees a reclaim frees. */
  function FreeCount(q: seq<Retiree>, min: Option<nat>): (n: nat)
    ensures n <= |q|
    ensures forall i :: 0 <= i < n ==> min.None? || q[i].tag <= min.value
  {
    if q == [] || (min.Some? && q[0].tag > min.value) then 0 else 1 + FreeCount(q[1..], min)
  }

  function Versions(q: seq<Retiree>): (vs: set<nat>)
    ensures forall v :: v in vs <==> exists i :: 0 <= i < |q| && q[i].version == v
  {
    set i | 0 <= i < |q| :: q[i].version
  }

  /** Readers inside the registry. */
  predicate InRegistry(r: Reader) { r.Registered? || r.Holding? }

  function Registry(readers: seq<Reader>): set<nat> {
    set i | 0 <= i < |readers| && InRegistry(readers[i])
  }

  datatype Step =
    | Load | Register(r: nat) | Clone(r: nat) | Exit(r: nat)
    | Swap | Bump(p: nat) | Push(p: nat)
    | Sample(min: Option<nat>) | Drain(c: nat)

  predicate Enabled(s: State, t: Step) {
    match t
    case Load => true
    case Register(r) => r < |s.readers| && s.readers[r].Loaded?
    case Clone(r) => r < |s.readers| && s.readers[r].Registered?
    case Exit(r) => r < |s.readers| && InRegistry(s.readers[r])
    case Swap => true
    case Bump(p) => p < |s.publishers| && s.publishers[p].Swapped?
    case Push(p) => p < |s.publishers| && s.publishers[p].Tagged?
    case Sample(min) => IsLeast(s.active, min)
    case Drain(c) => c < |s.reclaimers| && s.reclaimers[c].Sampled?
  }

  function Perform(s: State, t: Step): State
    requires Enabled(s, t)
  {
    match t
    case Load => s.(readers := s.readers + [Loaded(s.epoch)])
    case Register(r) =>
      var e := s.readers[r].entry;
      s.(active := s.active + multiset{e}, readers := s.readers[r := Registered(e)])
    case Clone(r) => s.(readers := s.readers[r := Holding(s.readers[r].entry, s.current)])
    case Exit(r) => s.(active := s.active - multiset{s.readers[r].entry}, readers := s.readers[r := Exited])
    case Swap => s.(publishers := s.publishers + [Swapped(s.current)], current := s.current + 1)
    case Bump(p) =>
      s.(epoch := s.epoch + 1, publishers := s.publishers[p := Tagged(s.publishers[p].was, s.epoch + 1)])
    case Push(p) =>
      var q := s.publishers[p];
      s.(retired := s.retired + [Retiree(q.tag, q.was)], publishers := s.publishers[p := Queued])
    case Sample(min) => s.(reclaimers := s.reclaimers + [Sampled(min, Registry(s.readers))])
    case Drain(c) =>
      var n := FreeCount(s.retired, s.reclaimers[c].min);
      s.(retired := s.retired[n..], freed := s.freed + Versions(s.retired[..n]),
         reclaimers := s.reclaimers[c := Drained])
  }

  // ---- the invariant ----

  /** The entry epochs of everyone in the registry. */
  function Entries(readers: seq<Reader>): multiset<nat> {
    if readers == [] then multiset{}
    else Entries(readers[..|readers| - 1]) + Own(readers[|readers| - 1])
  }

  function Own(r: Reader): multiset<nat> { if InRegistry(r) then multiset{r.entry} else multiset{} }

  /** A publish's old version became the version its number says; each version is swapped out once. */
  ghost predicate PublishersOk(s: State) {
    && |s.publishers| == s.current
    && forall p {:trigger s.publishers[p]} :: 0 <= p < |s.publishers| ==>
      match s.publishers[p]
      case Swapped(was) => was == p
      case Tagged(was, tag) => was == p && tag <= s.epoch
      case Queued => true
  }

  /** A reader's version was never retired at or before the reader's entry. */
  ghost predicate ReadersOk(s: State) {
    forall r {:trigger s.readers[r]} :: 0 <= r < |s.readers| ==>
      match s.readers[r]
      case Loaded(e) => e <= s.epoch
      case Registered(e) => e <= s.epoch
      case Holding(e, v) => e <= s.epoch && v <= s.current && TagsAbove(s, v, e)
      case Exited => true
  }

  /** Wherever version `v` carries a retirement tag, the tag is above `e`. */
  ghost predicate TagsAbove(s: State, v: nat, e: nat) {
    && (forall i {:trigger s.retired[i]} :: 0 <= i < |s.retired| && s.retired[i].version == v ==> s.retired[i].tag > e)
    && (v < |s.publishers| && s.publishers[v].Tagged? ==> s.publishers[v].tag > e)
  }

  /** Queued versions were swapped out, and carry tags already drawn. */
  ghost predicate QueueOk(s: State) {
    forall i {:trigger s.retired[i]} :: 0 <= i < |s.retired| ==>
      s.retired[i].version < s.current && s.retired[i].tag <= s.epoch
  }

  /** Whoever a reclaim saw is still registered no earlier than its sample, or has left. */
  ghost predicate SamplesOk(s: State) {
    forall c {:trigger s.reclaimers[c]} :: 0 <= c < |s.reclaimers| && s.reclaimers[c].Sampled? ==>
      SampleOk(s.readers, s.reclaimers[c].min, s.reclaimers[c].seen)
  }

  ghost predicate SampleOk(readers: seq<Reader>, min: Option<nat>, seen: set<nat>) {
    forall r {:trigger r in seen} :: r in seen ==>
      r < |readers| && !readers[r].Loaded? && (InRegistry(readers[r]) ==> min.Some? && min.value <= readers[r].entry)
  }

  /** No version held now was retired at or before an entry a reclaim sampled, whenever its reader came. */
  ghost predicate GuardsOk(s: State) {
    forall c {:trigger s.reclaimers[c]} :: 0 <= c < |s.reclaimers| && s.reclaimers[c].Sampled? ==>
      s.reclaimers[c].min.Some? ==> Guards(s, s.reclaimers[c].min.value)
  }

  ghost predicate Guards(s: State, m: nat) {
    && m <= s.epoch
    && forall r {:trigger s.readers[r]} :: 0 <= r < |s.readers| && s.readers[r].Holding? ==>
      TagsAbove(s, s.readers[r].version, m)
  }

  ghost predicate Inv(s: State) {
    && s.active == Entries(s.readers)
    && PublishersOk(s) && ReadersOk(s) && QueueOk(s) && SamplesOk(s) && GuardsOk(s)
  }

  lemma InitHolds()
    ensures Inv(Init())
  {
  }

  lemma {:induction false} EntryIsActive(readers: seq<Reader>, r: nat)
    requires r < |readers| && InRegistry(readers[r])
    ensures readers[r].entry in Entries(readers)
  {
    var n := |readers| - 1;
    if r < n {
      EntryIsActive(readers[..n], r);
    }
  }

  lemma {:induction false} EntriesUpdate(readers: seq<Reader>, r: nat, x: Reader)
    requires r < |readers|
    ensures Entries(readers[r := x]) + Own(readers[r]) == Entries(readers) + Own(x)
  {
    hide Own;
    var n := |readers| - 1;
    if r < n {
      EntriesUpdate(readers[..n], r, x);
      assert readers[r := x][..n] == readers[..n][r := x];
      var a, b, z := Entries(readers[..n][r := x]), Entries(readers[..n]), Own(readers[n]);
      assert a + z + Own(readers[r]) == a + Own(readers[r]) + z;
      assert b + Own(x) + z == b + z + Own(x);
    } else {
      assert readers[r := x][..n] == readers[..n];
    }
  }

  lemma EntriesJoin(readers: seq<Reader>, r: nat, x: Reader)
    requires r < |readers| && !InRegistry(readers[r]) && InRegistry(x)
    ensures Entries(readers[r := x]) == Entries(readers) + multiset{x.entry}
  {
    hide Entries;
    EntriesUpdate(readers, r, x);
  }

  lemma EntriesStay(readers: seq<Reader>, r: nat, x: Reader)
    requires r < |readers| && InRegistry(readers[r]) && InRegistry(x) && x.entry == readers[r].entry
    ensures Entries(readers[r := x]) == Entries(readers)
  {
    hide Entries;
    EntriesUpdate(readers, r, x);
    var a, b, m := Entries(readers[r := x]), Entries(readers), multiset{x.entry};
    assert a == a + m - m && b == b + m - m;
  }

  lemma EntriesLeave(readers: seq<Reader>, r: nat)
    requires r < |readers| && InRegistry(readers[r])
    ensures Entries(readers[r := Exited]) == Entries(readers) - multiset{readers[r].entry}
  {
    hide Entries;
    EntriesUpdate(readers, r, Exited);
    var a, m := Entries(readers[r := Exited]), multiset{readers[r].entry};
    assert a == a + m - m;
  }

  lemma EntriesAdd(readers: seq<Reader>, x: Reader)
    requires !InRegistry(x)
    ensures Entries(readers + [x]) == Entries(readers)
  {
    assert (readers + [x])[..|readers|] == readers;
  }

  // ---- every step keeps it ----

  lemma LoadKeeps(s: State)
    requires Inv(s)
    ensures Inv(Perform(s, Load))
  {
    hide Entries;
    var s' := Perform(s, Load);
    EntriesAdd(s.readers, Loaded(s.epoch));
    assert forall r {:trigger s'.readers[r]} :: 0 <= r < |s.readers| ==> s'.readers[r] == s.readers[r];
    TagsSame(s, s');
    SamplesGrow(s, s');
    GuardsMove(s, s');
  }

  /** Guards stand while every held version keeps its tags above whatever they were above. */
  lemma GuardsMove(s: State, s': State)
    requires GuardsOk(s) && s.epoch <= s'.epoch && |s'.reclaimers| == |s.reclaimers|
    requires forall c {:trigger s'.reclaimers[c]} ::
      0 <= c < |s.reclaimers| && s'.reclaimers[c].Sampled? ==> s'.reclaimers[c] == s.reclaimers[c]
    requires forall r, e: nat {:trigger TagsAbove(s', s'.readers[r].version, e)} ::
      0 <= r < |s'.readers| && s'.readers[r].Holding? && e <= s.epoch ==>
        || TagsAbove(s', s'.readers[r].version, e)
        || (r < |s.readers| && s.readers[r] == s'.readers[r] && !TagsAbove(s, s.readers[r].version, e))
    ensures GuardsOk(s')
  {
    hide TagsAbove;
    forall c | 0 <= c < |s'.reclaimers| && s'.reclaimers[c].Sampled? && s'.reclaimers[c].min.Some?
      ensures Guards(s', s'.reclaimers[c].min.value)
    {
      var m := s.reclaimers[c].min.value;
      assert Guards(s, m);
      forall r | 0 <= r < |s'.readers| && s'.readers[r].Holding? ensures TagsAbove(s', s'.readers[r].version, m) {
      }
    }
  }

  lemma SamplesGrow(s: State, s': State)
    requires SamplesOk(s) && s'.reclaimers == s.reclaimers && |s.readers| <= |s'.readers|
    requires forall r {:trigger s'.readers[r]} :: 0 <= r < |s.readers| ==> s'.readers[r] == s.readers[r]
    ensures SamplesOk(s')
  {
    forall c | 0 <= c < |s'.reclaimers| && s'.reclaimers[c].Sampled?
      ensures SampleOk(s'.readers, s'.reclaimers[c].min, s'.reclaimers[c].seen)
    {
      assert SampleOk(s.readers, s.reclaimers[c].min, s.reclaimers[c].seen);
    }
  }

  /** A reader that moves on without lowering its entry stays within every sample. */
  lemma SamplesMove(s: State, s': State, r: nat, x: Reader)
    requires SamplesOk(s) && s'.reclaimers == s.reclaimers && r < |s.readers| && s'.readers == s.readers[r := x]
    requires
      || s.readers[r].Loaded? || x.Exited?
      || (InRegistry(s.readers[r]) && InRegistry(x) && x.entry == s.readers[r].entry)
    requires !x.Loaded?
    ensures SamplesOk(s')
  {
    forall c | 0 <= c < |s'.reclaimers| && s'.reclaimers[c].Sampled?
      ensures SampleOk(s'.readers, s'.reclaimers[c].min, s'.reclaimers[c].seen)
    {
      assert SampleOk(s.readers, s.reclaimers[c].min, s.reclaimers[c].seen);
    }
  }

  lemma TagsSame(s: State, s': State)
    requires ReadersOk(s) && s'.retired == s.retired && s'.publishers == s.publishers
    ensures forall v, e :: TagsAbove(s, v, e) ==> TagsAbove(s', v, e)
  {
  }

  lemma RegisterKeeps(s: State, r: nat)
    requires Inv(s) && Enabled(s, Register(r))
    ensures Inv(Perform(s, Register(r)))
  {
    hide Entries, TagsAbove, SampleOk;
    var s' := Perform(s, Register(r));
    EntriesJoin(s.readers, r, Registered(s.readers[r].entry));
    TagsSame(s, s');
    SamplesMove(s, s', r, s'.readers[r]);
    GuardsMove(s, s');
  }

  /** The version cloned is current, so it carries no tag yet. */
  lemma CloneKeeps(s: State, r: nat)
    requires Inv(s) && Enabled(s, Clone(r))
    ensures Inv(Perform(s, Clone(r)))
  {
    hide Entries, SampleOk;
    var s' := Perform(s, Clone(r));
    EntriesStay(s.readers, r, s'.readers[r]);
    TagsSame(s, s');
    SamplesMove(s, s', r, s'.readers[r]);
    assert forall e: nat :: TagsAbove(s', s.current, e);
    GuardsMove(s, s');
  }

  lemma ExitKeeps(s: State, r: nat)
    requires Inv(s) && Enabled(s, Exit(r))
    ensures Inv(Perform(s, Exit(r)))
  {
    hide Entries, TagsAbove, SampleOk;
    var s' := Perform(s, Exit(r));
    EntriesLeave(s.readers, r);
    TagsSame(s, s');
    SamplesMove(s, s', r, Exited);
    GuardsMove(s, s');
  }

  lemma SwapKeeps(s: State)
    requires Inv(s)
    ensures Inv(Perform(s, Swap))
  {
    hide Entries, SampleOk;
    var s' := Perform(s, Swap);
    assert forall p {:trigger s'.publishers[p]} :: 0 <= p < |s.publishers| ==> s'.publishers[p] == s.publishers[p];
    forall r, e: nat |
      0 <= r < |s.readers| && s.readers[r].Holding? && e <= s.epoch && TagsAbove(s, s.readers[r].version, e)
      ensures TagsAbove(s', s.readers[r].version, e)
    {
    }
    GuardsMove(s, s');
  }

  /** The tag drawn for a version is above the entry of every reader that loaded the epoch before. */
  lemma BumpKeeps(s: State, p: nat)
    requires Inv(s) && Enabled(s, Bump(p))
    ensures Inv(Perform(s, Bump(p)))
  {
    hide Entries, SampleOk;
    var s' := Perform(s, Bump(p));
    forall r, e: nat |
      0 <= r < |s.readers| && s.readers[r].Holding? && e <= s.epoch && TagsAbove(s, s.readers[r].version, e)
      ensures TagsAbove(s', s.readers[r].version, e)
    {
    }
    GuardsMove(s, s');
  }

  lemma PushKeeps(s: State, p: nat)
    requires Inv(s) && Enabled(s, Push(p))
    ensures Inv(Perform(s, Push(p)))
  {
    hide Entries, SampleOk;
    var s' := Perform(s, Push(p));
    assert forall i {:trigger s'.retired[i]} :: 0 <= i < |s.retired| ==> s'.retired[i] == s.retired[i];
    forall r, e: nat |
      0 <= r < |s.readers| && s.readers[r].Holding? && e <= s.epoch && TagsAbove(s, s.readers[r].version, e)
      ensures TagsAbove(s', s.readers[r].version, e)
    {
    }
    GuardsMove(s, s');
  }

  lemma SampleKeeps(s: State, min: Option<nat>)
    requires Inv(s) && Enabled(s, Sample(min))
    ensures Inv(Perform(s, Sample(min)))
  {
    hide Entries;
    var s' := Perform(s, Sample(min));
    TagsSame(s, s');
    forall r | r in Registry(s.readers) ensures min.Some? && min.value <= s.readers[r].entry {
      EntryIsActive(s.readers, r);
    }
    assert SampleOk(s'.readers, min, Registry(s.readers));
    forall c | 0 <= c < |s.reclaimers| ensures s'.reclaimers[c] == s.reclaimers[c] {
    }
    SampleGuards(s, min);
    assert forall m: nat :: Guards(s, m) ==> Guards(s', m);
  }

  /** The least entry sampled is below the tags of everything held. */
  lemma SampleGuards(s: State, min: Option<nat>)
    requires Inv(s) && Enabled(s, Sample(min))
    ensures min.Some? ==> Guards(s, min.value)
  {
    hide SampleOk;
    if min.Some? {
      EntryOf(s.readers, min.value);
      forall r | 0 <= r < |s.readers| && s.readers[r].Holding?
        ensures TagsAbove(s, s.readers[r].version, min.value)
      {
        EntryIsActive(s.readers, r);
        assert TagsAbove(s, s.readers[r].version, s.readers[r].entry);
      }
    }
  }

  lemma {:induction false} EntryOf(readers: seq<Reader>, e: nat)
    requires e in Entries(readers)
    ensures exists r :: 0 <= r < |readers| && InRegistry(readers[r]) && readers[r].entry == e
  {
    var n := |readers| - 1;
    if e in Entries(readers[..n]) {
      EntryOf(readers[..n], e);
    } else {
      assert readers[n].entry == e;
    }
  }

  lemma DrainKeeps(s: State, c: nat)
    requires Inv(s) && Enabled(s, Drain(c))
    ensures Inv(Perform(s, Drain(c)))
  {
    hide Entries, SampleOk, FreeCount, Versions;
    var s' := Perform(s, Drain(c));
    var n := FreeCount(s.retired, s.reclaimers[c].min);
    assert forall i {:trigger s'.retired[i]} :: 0 <= i < |s'.retired| ==> s'.retired[i] == s.retired[n + i];
    forall r, e: nat |
      0 <= r < |s.readers| && s.readers[r].Holding? && e <= s.epoch && TagsAbove(s, s.readers[r].version, e)
      ensures TagsAbove(s', s.readers[r].version, e)
    {
    }
    GuardsMove(s, s');
  }

  lemma StepKeeps(s: State, t: Step)
    requires Inv(s) && Enabled(s, t)
    ensures Inv(Perform(s, t))
  {
    hide Inv, Perform;
    match t
    case Load => LoadKeeps(s);
    case Register(r) => RegisterKeeps(s, r);
    case Clone(r) => CloneKeeps(s, r);
    case Exit(r) => ExitKeeps(s, r);
    case Swap => SwapKeeps(s);
    case Bump(p) => BumpKeeps(s, p);
    case Push(p) => PushKeeps(s, p);
    case Sample(min) => SampleKeeps(s, min);
    case Drain(c) => DrainKeeps(s, c);
  }

  // ---- runs ----

  ghost predicate Next(s: State, s': State) {
    exists t :: Enabled(s, t) && s' == Perform(s, t)
  }

  ghost predicate StepAt(run: seq<State>, k: nat)
    requires 0 < k < |run|
  {
    Next(run[k - 1], run[k])
  }

  ghost predicate IsRun(run: seq<State>) {
    && run != [] && run[0] == Init()
    && forall k {:trigger StepAt(run, k)} :: 0 < k < |run| ==> StepAt(run, k)
  }

  lemma {:induction false} InvHolds(run: seq<State>, k: nat)
    requires IsRun(run) && k < |run|
    ensures Inv(run[k])
  {
    hide Inv, Enabled, Perform, Init;
    if k == 0 {
      InitHolds();
    } else {
      InvHolds(run, k - 1);
      assert StepAt(run, k);
      var t :| Enabled(run[k - 1], t) && run[k] == Perform(run[k - 1], t);
      StepKeeps(run[k - 1], t);
    }
  }

  /** What reclaim `c` would free now. */
  function WouldFree(s: State, c: nat): set<nat>
    requires c < |s.reclaimers| && s.reclaimers[c].Sampled?
  {
    Versions(s.retired[..FreeCount(s.retired, s.reclaimers[c].min)])
  }

  /** Every tag a held version carries is above its reader's entry epoch. */
  lemma HeldTagsAreLater(run: seq<State>, k: nat, r: nat, i: nat)
    requires IsRun(run) && k < |run| && r < |run[k].readers| && run[k].readers[r].Holding?
    requires i < |run[k].retired| && run[k].retired[i].version == run[k].readers[r].version
    ensures run[k].retired[i].tag > run[k].readers[r].entry
  {
    hide IsRun, Entries, SampleOk;
    InvHolds(run, k);
  }

  /** No reclaim frees a version held by a reader that was registered when it sampled. */
  lemma SeenReadersKeepTheirVersions(run: seq<State>, k: nat, c: nat, r: nat)
    requires IsRun(run) && k < |run| && c < |run[k].reclaimers| && run[k].reclaimers[c].Sampled?
    requires r in run[k].reclaimers[c].seen && r < |run[k].readers| && run[k].readers[r].Holding?
    ensures run[k].readers[r].version !in WouldFree(run[k], c)
  {
    hide IsRun, Entries, FreeCount;
    InvHolds(run, k);
    var s := run[k];
    var n := FreeCount(s.retired, s.reclaimers[c].min);
    forall i | 0 <= i < n ensures s.retired[..n][i].version != s.readers[r].version {
      assert s.retired[..n][i] == s.retired[i];
    }
  }

  /** A reclaim whose sample and drain are one step frees no version any reader holds. */
  lemma AtomicReclaimIsSafe(run: seq<State>, k: nat, min: Option<nat>, r: nat)
    requires IsRun(run) && k < |run| && IsLeast(run[k].active, min)
    requires r < |run[k].readers| && run[k].readers[r].Holding?
    ensures run[k].readers[r].version !in Versions(run[k].retired[..FreeCount(run[k].retired, min)])
  {
    hide IsRun, FreeCount, Entries;
    InvHolds(run, k);
    var s := run[k];
    EntryIsActive(s.readers, r);
    var n := FreeCount(s.retired, min);
    forall i | 0 <= i < n ensures s.retired[..n][i].version != s.readers[r].version {
      assert s.retired[..n][i] == s.retired[i];
    }
  }

  // ---- exactly what a reclaim frees ----

  lemma {:induction false} FreeCountIs(q: seq<Retiree>, min: Option<nat>, i: nat)
    requires i < |q|
    ensures i < FreeCount(q, min) <==> min.None? || forall j :: 0 <= j <= i ==> q[j].tag <= min.value
  {
    if i > 0 && (min.None? || q[0].tag <= min.value) {
      FreeCountIs(q[1..], min, i - 1);
      assert forall j :: 0 < j < |q| ==> q[j] == q[1..][j - 1];
    }
  }

  /** A drain frees a version exactly when no tag up to its place in the queue is above the sampled entry. */
  lemma DrainFreesExactly(s: State, c: nat, v: nat)
    requires c < |s.reclaimers| && s.reclaimers[c].Sampled?
    ensures var min := s.reclaimers[c].min;
      v in WouldFree(s, c) <==>
        exists i :: 0 <= i < |s.retired| && s.retired[i].version == v &&
          (min.None? || forall j :: 0 <= j <= i ==> s.retired[j].tag <= min.value)
  {
    hide FreeCount;
    var n := FreeCount(s.retired, s.reclaimers[c].min);
    assert forall i :: 0 <= i < n ==> s.retired[..n][i] == s.retired[i];
    forall i: nat | i < |s.retired| && s.retired[i].version == v
      ensures i < n <==>
        s.reclaimers[c].min.None? || forall j :: 0 <= j <= i ==> s.retired[j].tag <= s.reclaimers[c].min.value
    {
      FreeCountIs(s.retired, s.reclaimers[c].min, i);
    }
  }

  /**
   * The exact condition for a reader to lose the version it holds: the reclaim sampled an empty registry,
   * and the version is queued by the time it drains. A sample that saw any reader at all, whoever it was,
   * frees nothing that anyone holds.
   */
  lemma HeldVersionIsFreedExactlyWhen(run: seq<State>, k: nat, c: nat, r: nat)
    requires IsRun(run) && k < |run| && c < |run[k].reclaimers| && run[k].reclaimers[c].Sampled?
    requires r < |run[k].readers| && run[k].readers[r].Holding?
    ensures run[k].readers[r].version in WouldFree(run[k], c) <==>
      run[k].reclaimers[c].min.None? && run[k].readers[r].version in Versions(run[k].retired)
  {
    hide IsRun, Entries, SampleOk, WouldFree;
    InvHolds(run, k);
    var s := run[k];
    DrainFreesExactly(s, c, s.readers[r].version);
    assert s.reclaimers[c].min.Some? ==> Guards(s, s.reclaimers[c].min.value);
  }

  /** What a registered reader that a reclaim saw protects: everything retired after its entry epoch. */
  lemma SeenEntryProtects(run: seq<State>, k: nat, c: nat, r: nat, i: nat)
    requires IsRun(run) && k < |run| && c < |run[k].reclaimers| && run[k].reclaimers[c].Sampled?
    requires r in run[k].reclaimers[c].seen && r < |run[k].readers| && InRegistry(run[k].readers[r])
    requires i < FreeCount(run[k].retired, run[k].reclaimers[c].min)
    ensures run[k].retired[i].tag <= run[k].readers[r].entry
  {
    hide IsRun, Entries;
    InvHolds(run, k);
    assert SampleOk(run[k].readers, run[k].reclaimers[c].min, run[k].reclaimers[c].seen);
  }

  // ---- a quiescent reclaim ----

  lemma {:induction false} FreesAll(q: seq<Retiree>)
    ensures FreeCount(q, None) == |q|
  {
    if q != [] {
      FreesAll(q[1..]);
    }
  }

  lemma {:induction false} NobodyIn(readers: seq<Reader>)
    requires Registry(readers) == {}
    ensures Entries(readers) == multiset{}
  {
    if readers != [] {
      var n := |readers| - 1;
      assert forall i :: 0 <= i < |readers| && InRegistry(readers[i]) ==> i in Registry(readers);
      assert Registry(readers[..n]) == {};
      NobodyIn(readers[..n]);
    }
  }

  /** A reclaim in progress keeps its sample until it drains. */
  ghost predicate Keeps(s: State, s': State, c: nat) {
    && c < |s.reclaimers| <= |s'.reclaimers|
    && (s'.reclaimers[c].Sampled? ==> s'.reclaimers[c] == s.reclaimers[c])
  }

  lemma {:induction false} SampleStays(run: seq<State>, i: nat, j: nat, c: nat)
    requires IsRun(run) && i <= j < |run| && c < |run[i].reclaimers|
    ensures Keeps(run[i], run[j], c)
    decreases j
  {
    if i < j {
      SampleStays(run, i, j - 1, c);
      assert StepAt(run, j);
    }
  }

  /**
   * Once no reader is active, one reclaim empties the queue: if it sampled at a moment when nobody was
   * registered, its drain, whatever ran in between, leaves nothing queued and has freed all of it.
   */
  lemma QuiescentReclaimEmpties(run: seq<State>, i: nat, j: nat, min: Option<nat>)
    requires IsRun(run) && i + 1 <= j < |run| && Registry(run[i].readers) == {}
    requires Enabled(run[i], Sample(min)) && run[i + 1] == Perform(run[i], Sample(min))
    requires |run[i].reclaimers| < |run[j].reclaimers| && run[j].reclaimers[|run[i].reclaimers|].Sampled?
    ensures var s := Perform(run[j], Drain(|run[i].reclaimers|));
      s.retired == [] && s.freed == run[j].freed + Versions(run[j].retired)
  {
    hide IsRun, Entries, SampleOk, Versions, FreeCount;
    var c := |run[i].reclaimers|;
    InvHolds(run, i);
    NobodyIn(run[i].readers);
    assert min.None?;
    SampleStays(run, i + 1, j, c);
    FreesAll(run[j].retired);
    assert run[j].retired[..|run[j].retired|] == run[j].retired;
  }

  /** The two steps back to back, for every run whose readers have all left. */
  lemma QuiescentReclaim(run: seq<State>, k: nat, min: Option<nat>)
    requires IsRun(run) && k < |run| && Registry(run[k].readers) == {} && Enabled(run[k], Sample(min))
    ensures var sampled := Perform(run[k], Sample(min));
      && Enabled(sampled, Drain(|run[k].reclaimers|))
      && var s := Perform(sampled, Drain(|run[k].reclaimers|));
         s.retired == [] && s.freed == run[k].freed + Versions(run[k].retired)
  {
    hide IsRun, Entries, SampleOk, Versions, FreeCount;
    InvHolds(run, k);
    NobodyIn(run[k].readers);
    FreesAll(run[k].retired);
    assert run[k].retired[..|run[k].retired|] == run[k].retired;
  }

  // ---- two runs ----

  /** A reader that loads the epoch before a reclaim samples, and registers after. */
  function Late(k: nat): State {
    if k == 0 then Init()
    else if k == 1 then State(0, multiset{}, [], 0, [Loaded(0)], [], [], {})
    else if k == 2 then State(0, multiset{}, [], 0, [Loaded(0)], [], [Sampled(None, {})], {})
    else if k == 3 then State(0, multiset{0}, [], 0, [Registered(0)], [], [Sampled(None, {})], {})
    else if k == 4 then State(0, multiset{0}, [], 0, [Holding(0, 0)], [], [Sampled(None, {})], {})
    else if k == 5 then State(0, multiset{0}, [], 1, [Holding(0, 0)], [Swapped(0)], [Sampled(None, {})], {})
    else if k == 6 then State(1, multiset{0}, [], 1, [Holding(0, 0)], [Tagged(0, 1)], [Sampled(None, {})], {})
    else if k == 7 then State(1, multiset{0}, [Retiree(1, 0)], 1, [Holding(0, 0)], [Queued], [Sampled(None, {})], {})
    else State(1, multiset{0}, [], 1, [Holding(0, 0)], [Queued], [Drained], {0})
  }

  lemma LateReads(k: nat)
    requires k < 4
    ensures Next(Late(k), Late(k + 1))
  {
    if k == 0 {
      assert Late(1) == Perform(Late(0), Load);
    } else if k == 1 {
      assert Registry([Loaded(0)]) == {};
      assert Late(2) == Perform(Late(1), Sample(None));
    } else if k == 2 {
      assert multiset{} + multiset{0} == multiset{0};
      assert Late(3) == Perform(Late(2), Register(0));
    } else {
      assert Late(4) == Perform(Late(3), Clone(0));
    }
  }

  lemma LatePublishes(k: nat)
    requires 4 <= k < 7
    ensures Next(Late(k), Late(k + 1))
  {
    if k == 4 {
      assert Late(5) == Perform(Late(4), Swap);
    } else if k == 5 {
      assert Late(6) == Perform(Late(5), Bump(0));
    } else {
      assert Late(7) == Perform(Late(6), Push(0));
    }
  }

  lemma LateFrees()
    ensures Next(Late(7), Late(8))
  {
    hide FreeCount;
    var q := [Retiree(1, 0)];
    FreesAll(q);
    assert q[..1] == q && q[1..] == [];
    assert q[0].version == 0;
    assert Versions(q) == {0};
    assert Late(8) == Perform(Late(7), Drain(0));
  }

  /**
   * The sample and the drain are two lock acquisitions, and a reader that registers between them is not
   * protected: a run frees a version while such a reader still holds it.
   */
  lemma LateReaderLosesItsVersion() returns (run: seq<State>)
    ensures IsRun(run)
    ensures var s := run[|run| - 1]; s.readers == [Holding(0, 0)] && 0 in s.freed
  {
    hide Next;
    run := seq(9, k requires 0 <= k < 9 => Late(k));
    forall k | 0 < k < |run| ensures StepAt(run, k) {
      if k <= 4 {
        LateReads(k - 1);
      } else if k <= 7 {
        LatePublishes(k - 1);
      } else {
        LateFrees();
      }
    }
  }

  /** A version retired, then a reader that enters at the very epoch it was retired at. */
  function AtEntry(k: nat): State {
    var q := [Retiree(1, 0)];
    if k == 0 then Init()
    else if k == 1 then State(0, multiset{}, [], 1, [], [Swapped(0)], [], {})
    else if k == 2 then State(1, multiset{}, [], 1, [], [Tagged(0, 1)], [], {})
    else if k == 3 then State(1, multiset{}, q, 1, [], [Queued], [], {})
    else if k == 4 then State(1, multiset{}, q, 1, [Loaded(1)], [Queued], [], {})
    else if k == 5 then State(1, multiset{1}, q, 1, [Registered(1)], [Queued], [], {})
    else if k == 6 then State(1, multiset{1}, q, 1, [Holding(1, 1)], [Queued], [], {})
    else if k == 7 then State(1, multiset{1}, q, 1, [Holding(1, 1)], [Queued], [Sampled(Some(1), {0})], {})
    else State(1, multiset{1}, [], 1, [Holding(1, 1)], [Queued], [Drained], {0})
  }

  lemma AtEntryRetires(k: nat)
    requires k < 4
    ensures Next(AtEntry(k), AtEntry(k + 1))
  {
    if k == 0 {
      assert AtEntry(1) == Perform(AtEntry(0), Swap);
    } else if k == 1 {
      assert AtEntry(2) == Perform(AtEntry(1), Bump(0));
    } else if k == 2 {
      assert AtEntry(3) == Perform(AtEntry(2), Push(0));
    } else {
      assert AtEntry(4) == Perform(AtEntry(3), Load);
    }
  }

  lemma AtEntryReads(k: nat)
    requires 4 <= k < 7
    ensures Next(AtEntry(k), AtEntry(k + 1))
  {
    if k == 4 {
      assert multiset{} + multiset{1} == multiset{1};
      assert AtEntry(5) == Perform(AtEntry(4), Register(0));
    } else if k == 5 {
      assert AtEntry(6) == Perform(AtEntry(5), Clone(0));
    } else {
      assert Registry([Holding(1, 1)]) == {0};
      assert AtEntry(7) == Perform(AtEntry(6), Sample(Some(1)));
    }
  }

  lemma AtEntryFrees()
    ensures Next(AtEntry(7), AtEntry(8))
  {
    hide FreeCount;
    var q := [Retiree(1, 0)];
    FreeCountIs(q, Some(1), 0);
    assert q[..1] == q && q[1..] == [];
    assert q[0].version == 0;
    assert Versions(q) == {0};
    assert AtEntry(8) == Perform(AtEntry(7), Drain(0));
  }

  /** A version retired at a reader's entry epoch is freed while that registered, sampled reader is active. */
  lemma RetiredAtEntryIsFreed() returns (run: seq<State>)
    ensures IsRun(run) && |run| == 9
    ensures run[7].readers == run[8].readers == [Holding(1, 1)] && run[7].reclaimers == [Sampled(Some(1), {0})]
    ensures run[7].retired == [Retiree(1, 0)] && 0 !in run[7].freed && 0 in run[8].freed
  {
    hide Next;
    run := seq(9, k requires 0 <= k < 9 => AtEntry(k));
    forall k | 0 < k < |run| ensures StepAt(run, k) {
      if k <= 4 {
        AtEntryRetires(k - 1);
      } else if k <= 7 {
        AtEntryReads(k - 1);
      } else {
        AtEntryFrees();
      }
    }
  }
}
