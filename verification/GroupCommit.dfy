/**
 * Group commit as a state machine: writers and checkpoints interleave under the commit queue's lock,
 * its `flushing` flag and its condition variable.
 */
module GroupCommit {
  import opened Types

  datatype Result = Ok(index: nat) | Err

  /** What a leader has done with its group: `n` tickets of it are settled. */
  datatype Phase = Appending | Durable | Settling(base: Option<nat>, n: nat)

  /** A writer inside its call; calls are numbered by the order their tickets joined the queue. */
  datatype Writer = Asleep | Awake | Leading(group: seq<nat>, phase: Phase) | Returned(result: Result)

  /** A checkpoint inside its exclusive instant. */
  datatype Checkpoint = Sleeping | Woken | Holding | Released

  datatype State = State(
    writers: seq<Writer>, ckpts: seq<Checkpoint>,
    queue: seq<nat>, flushing: bool,
    settled: map<nat, Result>,
    /** The commits made durable, in log order. */
    log: seq<nat>,
    /** How many of them the published snapshot reflects: its index. */
    shown: nat)

  function Init(): State { State([], [], [], false, map[], [], 0) }

  datatype Step =
    | Enter | Stir(t: nat) | Resume(t: nat)
    | AppendOk(t: nat) | AppendFail(t: nat) | Publish(t: nat) | Settle(t: nat) | Finish(t: nat)
    | CkptEnter | CkptStir(c: nat) | CkptResume(c: nat) | CkptRelease(c: nat)

  predicate LeadingIn(s: State, t: nat, p: Phase) {
    t < |s.writers| && s.writers[t].Leading? && s.writers[t].phase == p
  }

  predicate Enabled(s: State, step: Step) {
    match step
    case Enter => true
    case Stir(t) => t < |s.writers| && s.writers[t].Asleep?
    case Resume(t) => t < |s.writers| && s.writers[t].Awake?
    case AppendOk(t) => LeadingIn(s, t, Appending)
    case AppendFail(t) => LeadingIn(s, t, Appending)
    case Publish(t) => LeadingIn(s, t, Durable)
    case Settle(t) =>
      t < |s.writers| && s.writers[t].Leading? && s.writers[t].phase.Settling? &&
      s.writers[t].phase.n < |s.writers[t].group|
    case Finish(t) =>
      t < |s.writers| && s.writers[t].Leading? && s.writers[t].phase.Settling? &&
      s.writers[t].phase.n == |s.writers[t].group|
    case CkptEnter => true
    case CkptStir(c) => c < |s.ckpts| && s.ckpts[c].Sleeping?
    case CkptResume(c) => c < |s.ckpts| && s.ckpts[c].Woken?
    case CkptRelease(c) => c < |s.ckpts| && s.ckpts[c].Holding?
  }

  /** The body of a writer's wait loop, under the queue's lock. */
  function Decide(s: State, t: nat): State
    requires t < |s.writers|
  {
    if t in s.settled then s.(writers := s.writers[t := Returned(s.settled[t])])
    else if !s.flushing then s.(flushing := true, writers := s.writers[t := Leading(s.queue, Appending)], queue := [])
    else s.(writers := s.writers[t := Asleep])
  }

  function Claim(s: State, c: nat): State
    requires c < |s.ckpts|
  {
    if s.flushing then s.(ckpts := s.ckpts[c := Sleeping])
    else s.(flushing := true, ckpts := s.ckpts[c := Holding])
  }

  /** Dropping the flush guard: the flag is cleared and every waiter notified. */
  function Release(s: State): State {
    s.(flushing := false,
       writers := seq(|s.writers|, i requires 0 <= i < |s.writers| =>
         if s.writers[i].Asleep? then Awake else s.writers[i]),
       ckpts := seq(|s.ckpts|, i requires 0 <= i < |s.ckpts| =>
         if s.ckpts[i].Sleeping? then Woken else s.ckpts[i]))
  }

  function Perform(s: State, step: Step): State
    requires Enabled(s, step)
  {
    match step
    case Enter =>
      var t := |s.writers|;
      Decide(s.(writers := s.writers + [Awake], queue := s.queue + [t]), t)
    case Stir(t) => s.(writers := s.writers[t := Awake])
    case Resume(t) => Decide(s, t)
    case AppendOk(t) =>
      var g := s.writers[t].group;
      s.(writers := s.writers[t := Leading(g, Durable)], log := s.log + g)
    case AppendFail(t) => s.(writers := s.writers[t := Leading(s.writers[t].group, Settling(None, 0))])
    case Publish(t) =>
      var g := s.writers[t].group;
      s.(writers := s.writers[t := Leading(g, Settling(Some(s.shown), 0))], shown := s.shown + |g|)
    case Settle(t) =>
      var g, p := s.writers[t].group, s.writers[t].phase;
      s.(settled := s.settled[g[p.n] := if p.base.None? then Err else Ok(p.base.value + p.n + 1)],
         writers := s.writers[t := Leading(g, Settling(p.base, p.n + 1))])
    case Finish(t) =>
      var r := if t in s.settled then s.settled[t] else Err;
      Release(s.(writers := s.writers[t := Returned(r)]))
    case CkptEnter => Claim(s.(ckpts := s.ckpts + [Woken]), |s.ckpts|)
    case CkptStir(c) => s.(ckpts := s.ckpts[c := Woken])
    case CkptResume(c) => Claim(s, c)
    case CkptRelease(c) => Release(s.(ckpts := s.ckpts[c := Released]))
  }

  // ---- the invariant ----

  /** Who holds flush exclusivity. */
  datatype Holder = Nobody | Leader(t: nat) | Pinner(c: nat)

  /** Only the holder may be leading, and a writer sleeps only while there is a holder. */
  ghost predicate WritersOk(writers: seq<Writer>, h: Holder) {
    && (h.Leader? ==> h.t < |writers|)
    && forall t {:trigger writers[t]} :: 0 <= t < |writers| ==>
      (writers[t].Leading? <==> h == Leader(t)) && (writers[t].Asleep? ==> !h.Nobody?)
  }

  ghost predicate CkptsOk(ckpts: seq<Checkpoint>, h: Holder) {
    && (h.Pinner? ==> h.c < |ckpts|)
    && forall c {:trigger ckpts[c]} :: 0 <= c < |ckpts| ==>
      (ckpts[c].Holding? <==> h == Pinner(c)) && (ckpts[c].Sleeping? ==> !h.Nobody?)
  }

  /** The leader's group and phase; nothing when nobody leads. */
  datatype Lead = Lead(group: seq<nat>, phase: Phase) | NoLead

  function LeadOf(writers: seq<Writer>, h: Holder): Lead {
    if h.Leader? && h.t < |writers| && writers[h.t].Leading?
    then Lead(writers[h.t].group, writers[h.t].phase) else NoLead
  }

  function Group(l: Lead): seq<nat> { if l.Lead? then l.group else [] }

  /** How many of the leader's tickets are settled. */
  function Progress(l: Lead): nat { if l.Lead? && l.phase.Settling? then l.phase.n else 0 }

  predicate Consecutive(xs: seq<nat>, from: int) {
    forall i :: 0 <= i < |xs| ==> xs[i] == from + i
  }

  /**
   * Every one of `count` tickets is in exactly one place, by number: settled, then the rest of the
   * leader's group, then the queue.
   */
  ghost predicate Places(count: nat, queue: seq<nat>, l: Lead, settled: map<nat, Result>) {
    var front := count - |queue|;
    var g := Group(l);
    && 0 <= front - |g| && Progress(l) <= |g|
    && Consecutive(queue, front)
    && Consecutive(g, front - |g|)
    && forall t {:trigger t in settled} :: t in settled <==> 0 <= t < front - |g| + Progress(l)
  }

  ghost predicate Increasing(xs: seq<nat>) {
    forall i, j :: 0 <= i < j < |xs| ==> xs[i] < xs[j]
  }

  /** Each reported index is the commit's place in the log, and within what is published. */
  ghost predicate Indices(log: seq<nat>, shown: nat, settled: map<nat, Result>) {
    && Increasing(log)
    && shown <= |log|
    && (forall t {:trigger settled[t]} :: t in settled && settled[t].Ok? ==>
          1 <= settled[t].index <= shown && log[settled[t].index - 1] == t)
    && (forall i {:trigger log[i]} :: 0 <= i < shown && log[i] in settled ==> settled[log[i]] == Ok(i + 1))
  }

  /** A call returns the result its ticket was settled with. */
  ghost predicate Answers(writers: seq<Writer>, settled: map<nat, Result>) {
    forall t {:trigger writers[t]} :: 0 <= t < |writers| && writers[t].Returned? ==>
      t in settled && writers[t].result == settled[t]
  }

  predicate EndsBelow(log: seq<nat>, n: int) { log != [] ==> log[|log| - 1] < n }

  /** What the leader's phase says about the log and the published snapshot. */
  ghost predicate Flushed(log: seq<nat>, shown: nat, front: int, l: Lead) {
    match l
    case NoLead => shown == |log| && EndsBelow(log, front)
    case Lead(g, Appending) => shown == |log| && EndsBelow(log, front - |g|)
    case Lead(g, Durable) => shown + |g| == |log| && log[shown..] == g
    case Lead(g, Settling(None, n)) => shown == |log| && EndsBelow(log, front - |g|)
    case Lead(g, Settling(Some(base), n)) => base + |g| == shown == |log| && log[base..] == g
  }

  ghost predicate Inv(s: State, h: Holder) {
    var l := LeadOf(s.writers, h);
    && (s.flushing <==> !h.Nobody?)
    && WritersOk(s.writers, h) && CkptsOk(s.ckpts, h)
    && (l.Lead? ==> h.t in l.group)
    && Places(|s.writers|, s.queue, l, s.settled)
    && Indices(s.log, s.shown, s.settled)
    && Answers(s.writers, s.settled)
    && Flushed(s.log, s.shown, |s.writers| - |s.queue|, l)
  }

  lemma InitHolds()
    ensures Inv(Init(), Nobody)
  {
  }

  // ---- every step keeps it ----

  /** Changing a writer that neither led nor leads changes nothing else. */
  lemma Quietly(writers: seq<Writer>, h: Holder, t: nat, w: Writer)
    requires WritersOk(writers, h) && t < |writers| && !writers[t].Leading? && !w.Leading?
    requires w.Asleep? ==> !h.Nobody?
    ensures WritersOk(writers[t := w], h) && LeadOf(writers[t := w], h) == LeadOf(writers, h)
  {
  }

  lemma AnswersSet(writers: seq<Writer>, settled: map<nat, Result>, t: nat, w: Writer)
    requires Answers(writers, settled) && t < |writers|
    requires w.Returned? ==> t in settled && w.result == settled[t]
    ensures Answers(writers[t := w], settled)
  {
  }

  lemma DecideKeeps(s: State, t: nat, h: Holder) returns (h': Holder)
    requires Inv(s, h) && t < |s.writers| && s.writers[t].Awake?
    ensures Inv(Decide(s, t), h')
  {
    hide WritersOk, CkptsOk, Answers, Indices, LeadOf;
    if t in s.settled {
      Quietly(s.writers, h, t, Returned(s.settled[t]));
      AnswersSet(s.writers, s.settled, t, Returned(s.settled[t]));
      h' := h;
    } else if !s.flushing {
      h' := Leader(t);
      BecomeLeader(s.writers, t, s.queue);
      NoCkpts(s.ckpts, h');
      AnswersSet(s.writers, s.settled, t, Leading(s.queue, Appending));
      NobodyLeads(s.writers);
      assert s.queue[t - (|s.writers| - |s.queue|)] == t;
    } else {
      Quietly(s.writers, h, t, Asleep);
      AnswersSet(s.writers, s.settled, t, Asleep);
      h' := h;
    }
  }

  lemma NobodyLeads(writers: seq<Writer>)
    ensures LeadOf(writers, Nobody) == NoLead
  {
  }

  lemma BecomeLeader(writers: seq<Writer>, t: nat, queue: seq<nat>)
    requires WritersOk(writers, Nobody) && t < |writers|
    ensures var writers' := writers[t := Leading(queue, Appending)];
      WritersOk(writers', Leader(t)) && LeadOf(writers', Leader(t)) == Lead(queue, Appending)
  {
  }

  lemma NoCkpts(ckpts: seq<Checkpoint>, h: Holder)
    requires CkptsOk(ckpts, Nobody) && h.Leader?
    ensures CkptsOk(ckpts, h)
  {
  }

  lemma NoWriters(writers: seq<Writer>, h: Holder)
    requires WritersOk(writers, Nobody) && h.Pinner?
    ensures WritersOk(writers, h) && LeadOf(writers, h) == NoLead
  {
  }

  /** A new ticket joins the end of the queue. */
  lemma JoinKeeps(s: State, h: Holder)
    requires Inv(s, h)
    ensures Inv(s.(writers := s.writers + [Awake], queue := s.queue + [|s.writers|]), h)
  {
    hide WritersOk, CkptsOk, Answers, Indices, LeadOf;
    JoinWriters(s.writers, h, s.settled);
  }

  lemma JoinWriters(writers: seq<Writer>, h: Holder, settled: map<nat, Result>)
    requires WritersOk(writers, h) && Answers(writers, settled)
    ensures WritersOk(writers + [Awake], h) && Answers(writers + [Awake], settled)
    ensures LeadOf(writers + [Awake], h) == LeadOf(writers, h)
  {
    var writers' := writers + [Awake];
    assert forall t {:trigger writers'[t]} :: 0 <= t < |writers| ==> writers'[t] == writers[t];
  }

  lemma StirKeeps(s: State, t: nat, h: Holder)
    requires Inv(s, h) && t < |s.writers| && s.writers[t].Asleep?
    ensures Inv(s.(writers := s.writers[t := Awake]), h)
  {
    hide WritersOk, CkptsOk, Answers, Indices, LeadOf, Places, Flushed;
    Quietly(s.writers, h, t, Awake);
    AnswersSet(s.writers, s.settled, t, Awake);
  }

  /** The leader moves on to another phase. */
  lemma Advance(writers: seq<Writer>, h: Holder, t: nat, p: Phase, settled: map<nat, Result>)
    requires WritersOk(writers, h) && Answers(writers, settled) && t < |writers| && writers[t].Leading?
    ensures var writers' := writers[t := Leading(writers[t].group, p)];
      && h == Leader(t) && WritersOk(writers', h) && Answers(writers', settled)
      && LeadOf(writers, h) == Lead(writers[t].group, writers[t].phase)
      && LeadOf(writers', h) == Lead(writers[t].group, p)
  {
  }

  lemma LogGrows(log: seq<nat>, g: seq<nat>, from: int, shown: nat, settled: map<nat, Result>)
    requires Indices(log, shown, settled) && shown == |log| && EndsBelow(log, from) && Consecutive(g, from)
    ensures Indices(log + g, shown, settled) && (log + g)[shown..] == g
  {
    var log' := log + g;
    forall i, j | 0 <= i < j < |log'| ensures log'[i] < log'[j] {
      if i < |log| <= j {
        assert log[i] <= log[|log| - 1];
        assert log'[j] == g[j - |log|];
      }
    }
  }

  lemma AppendFlushed(log: seq<nat>, g: seq<nat>, front: int, shown: nat, settled: map<nat, Result>)
    requires Flushed(log, shown, front, Lead(g, Appending)) && Indices(log, shown, settled)
    requires Consecutive(g, front - |g|)
    ensures Flushed(log + g, shown, front, Lead(g, Durable)) && Indices(log + g, shown, settled)
  {
    hide Indices, Consecutive;
    LogGrows(log, g, front - |g|, shown, settled);
  }

  lemma SamePlaces(count: nat, queue: seq<nat>, g: seq<nat>, p: Phase, p': Phase, settled: map<nat, Result>)
    requires Places(count, queue, Lead(g, p), settled) && Progress(Lead(g, p)) == Progress(Lead(g, p'))
    ensures Places(count, queue, Lead(g, p'), settled) && Consecutive(g, count - |queue| - |g|)
  {
  }

  lemma AppendOkKeeps(s: State, t: nat, h: Holder)
    requires Inv(s, h) && LeadingIn(s, t, Appending)
    ensures Inv(Perform(s, AppendOk(t)), h)
  {
    hide WritersOk, CkptsOk, Answers, Indices, LeadOf, Places, Consecutive, Flushed;
    var g := s.writers[t].group;
    Advance(s.writers, h, t, Durable, s.settled);
    SamePlaces(|s.writers|, s.queue, g, Appending, Durable, s.settled);
    AppendFlushed(s.log, g, |s.writers| - |s.queue|, s.shown, s.settled);
  }

  lemma AppendFailKeeps(s: State, t: nat, h: Holder)
    requires Inv(s, h) && LeadingIn(s, t, Appending)
    ensures Inv(Perform(s, AppendFail(t)), h)
  {
    hide WritersOk, CkptsOk, Answers, Indices, LeadOf;
    Advance(s.writers, h, t, Settling(None, 0), s.settled);
  }

  lemma MoreShown(log: seq<nat>, shown: nat, settled: map<nat, Result>, g: seq<nat>)
    requires Indices(log, shown, settled) && shown + |g| == |log| && log[shown..] == g
    requires forall i :: 0 <= i < |g| ==> g[i] !in settled
    ensures Indices(log, shown + |g|, settled)
  {
    forall i | shown <= i < |log| ensures log[i] !in settled {
      assert log[i] == log[shown..][i - shown];
      assert g[i - shown] !in settled;
    }
  }

  lemma PublishKeeps(s: State, t: nat, h: Holder)
    requires Inv(s, h) && LeadingIn(s, t, Durable)
    ensures Inv(Perform(s, Publish(t)), h)
  {
    hide WritersOk, CkptsOk, Answers, Indices, LeadOf;
    Advance(s.writers, h, t, Settling(Some(s.shown), 0), s.settled);
    MoreShown(s.log, s.shown, s.settled, s.writers[t].group);
  }

  lemma SettleOne(log: seq<nat>, shown: nat, settled: map<nat, Result>, x: nat, r: Result)
    requires Indices(log, shown, settled) && x !in settled
    requires if r.Ok? then 1 <= r.index <= shown && log[r.index - 1] == x else EndsBelow(log, x + 1) && x !in log
    ensures Indices(log, shown, settled[x := r])
  {
  }

  lemma AnswersMore(writers: seq<Writer>, settled: map<nat, Result>, x: nat, r: Result)
    requires Answers(writers, settled) && x !in settled
    ensures Answers(writers, settled[x := r])
  {
  }

  lemma NotInLog(log: seq<nat>, n: int, x: nat)
    requires Increasing(log) && EndsBelow(log, n) && n <= x
    ensures x !in log && EndsBelow(log, x + 1)
  {
    forall i | 0 <= i < |log| ensures log[i] < x {
      assert log[i] <= log[|log| - 1];
    }
  }

  lemma IndicesIncrease(log: seq<nat>, shown: nat, settled: map<nat, Result>)
    requires Indices(log, shown, settled)
    ensures Increasing(log)
  {
  }

  /** A ticket is settled once, with its commit's place in the log if the group is durable and published. */
  lemma SettleKeeps(s: State, t: nat, h: Holder)
    requires Inv(s, h) && Enabled(s, Settle(t))
    ensures Inv(Perform(s, Settle(t)), h)
    ensures s.writers[t].group[s.writers[t].phase.n] !in s.settled
  {
    hide WritersOk, CkptsOk, Answers, Indices, LeadOf, Increasing;
    var g, p := s.writers[t].group, s.writers[t].phase;
    var x, r := g[p.n], if p.base.None? then Err else Ok(p.base.value + p.n + 1);
    Advance(s.writers, h, t, Settling(p.base, p.n + 1), s.settled);
    assert x == |s.writers| - |s.queue| - |g| + p.n;
    if p.base.Some? {
      assert s.log[p.base.value + p.n] == s.log[p.base.value..][p.n] == x;
    } else {
      IndicesIncrease(s.log, s.shown, s.settled);
      NotInLog(s.log, |s.writers| - |s.queue| - |g|, x);
    }
    SettleOne(s.log, s.shown, s.settled, x, r);
    AnswersMore(s.writers[t := Leading(g, Settling(p.base, p.n + 1))], s.settled, x, r);
  }

  /** Waking everyone when nobody holds exclusivity. */
  lemma ReleaseWaiters(s: State)
    requires Answers(s.writers, s.settled)
    requires forall t {:trigger s.writers[t]} :: 0 <= t < |s.writers| ==> !s.writers[t].Leading?
    requires forall c {:trigger s.ckpts[c]} :: 0 <= c < |s.ckpts| ==> !s.ckpts[c].Holding?
    ensures var s' := Release(s);
      && WritersOk(s'.writers, Nobody) && CkptsOk(s'.ckpts, Nobody) && Answers(s'.writers, s.settled)
      && |s'.writers| == |s.writers| && LeadOf(s'.writers, Nobody) == NoLead
  {
  }

  lemma NoOtherHolder(s: State, h: Holder)
    requires WritersOk(s.writers, h) && CkptsOk(s.ckpts, h)
    ensures forall t {:trigger s.writers[t]} :: 0 <= t < |s.writers| && h != Leader(t) ==> !s.writers[t].Leading?
    ensures forall c {:trigger s.ckpts[c]} :: 0 <= c < |s.ckpts| && h != Pinner(c) ==> !s.ckpts[c].Holding?
  {
  }

  /** The flusher's own ticket is settled by the time it returns. */
  lemma FinishKeeps(s: State, t: nat, h: Holder)
    requires Inv(s, h) && Enabled(s, Finish(t))
    ensures t in s.settled
    ensures Inv(Perform(s, Finish(t)), Nobody)
  {
    hide WritersOk, CkptsOk, Answers, Indices, LeadOf, Release;
    var g, p := s.writers[t].group, s.writers[t].phase;
    Advance(s.writers, h, t, p, s.settled);
    assert t in s.settled;
    NoOtherHolder(s, h);
    var mid := s.(writers := s.writers[t := Returned(s.settled[t])]);
    AnswersSet(s.writers, s.settled, t, Returned(s.settled[t]));
    ReleaseWaiters(mid);
    ReleaseSame(mid);
    GroupEnds(s.log, p.base, g, |s.writers| - |s.queue|);
  }

  lemma GroupEnds(log: seq<nat>, base: Option<nat>, g: seq<nat>, front: int)
    requires g != [] && Consecutive(g, front - |g|)
    requires if base.Some? then base.value + |g| == |log| && log[base.value..] == g else EndsBelow(log, front - |g|)
    ensures EndsBelow(log, front)
  {
    if base.Some? {
      assert log[|log| - 1] == log[base.value..][|g| - 1];
    }
  }

  lemma ReleaseSame(s: State)
    ensures var s' := Release(s);
      && !s'.flushing && s'.queue == s.queue && s'.settled == s.settled && s'.log == s.log && s'.shown == s.shown
  {
  }

  lemma ClaimKeeps(s: State, c: nat, h: Holder) returns (h': Holder)
    requires Inv(s, h) && c < |s.ckpts| && s.ckpts[c].Woken?
    ensures Inv(Claim(s, c), h')
  {
    hide WritersOk, Answers, Indices, LeadOf, Places, Flushed;
    if s.flushing {
      h' := h;
    } else {
      h' := Pinner(c);
      NoWriters(s.writers, h');
      NobodyLeads(s.writers);
    }
  }

  lemma CkptJoinKeeps(s: State, h: Holder)
    requires Inv(s, h)
    ensures Inv(s.(ckpts := s.ckpts + [Woken]), h)
  {
    hide WritersOk, Answers, Indices, LeadOf, Places, Flushed;
    var ckpts := s.ckpts + [Woken];
    assert forall c {:trigger ckpts[c]} :: 0 <= c < |s.ckpts| ==> ckpts[c] == s.ckpts[c];
  }

  lemma CkptStirKeeps(s: State, c: nat, h: Holder)
    requires Inv(s, h) && c < |s.ckpts| && s.ckpts[c].Sleeping?
    ensures Inv(s.(ckpts := s.ckpts[c := Woken]), h)
  {
    hide WritersOk, Answers, Indices, LeadOf, Places, Flushed;
  }

  lemma CkptReleaseKeeps(s: State, c: nat, h: Holder)
    requires Inv(s, h) && c < |s.ckpts| && s.ckpts[c].Holding?
    ensures Inv(Perform(s, CkptRelease(c)), Nobody)
  {
    hide WritersOk, Answers, Indices, Release, Places, Flushed;
    NoOtherHolder(s, h);
    var mid := s.(ckpts := s.ckpts[c := Released]);
    ReleaseWaiters(mid);
    ReleaseSame(mid);
  }

  lemma StepKeeps(s: State, step: Step, h: Holder) returns (h': Holder)
    requires Inv(s, h) && Enabled(s, step)
    ensures Inv(Perform(s, step), h')
  {
    hide Inv, Decide, Claim, Release;
    h' := h;
    match step {
      case Enter =>
        JoinKeeps(s, h);
        h' := DecideKeeps(s.(writers := s.writers + [Awake], queue := s.queue + [|s.writers|]), |s.writers|, h);
      case Stir(t) => StirKeeps(s, t, h);
      case Resume(t) => h' := DecideKeeps(s, t, h);
      case AppendOk(t) => AppendOkKeeps(s, t, h);
      case AppendFail(t) => AppendFailKeeps(s, t, h);
      case Publish(t) => PublishKeeps(s, t, h);
      case Settle(t) => SettleKeeps(s, t, h);
      case Finish(t) =>
        FinishKeeps(s, t, h);
        h' := Nobody;
      case CkptEnter =>
        CkptJoinKeeps(s, h);
        h' := ClaimKeeps(s.(ckpts := s.ckpts + [Woken]), |s.ckpts|, h);
      case CkptStir(c) => CkptStirKeeps(s, c, h);
      case CkptResume(c) => h' := ClaimKeeps(s, c, h);
      case CkptRelease(c) =>
        CkptReleaseKeeps(s, c, h);
        h' := Nobody;
    }
  }

  // ---- runs ----

  ghost predicate Next(s: State, s': State) {
    exists step :: Enabled(s, step) && s' == Perform(s, step)
  }

  ghost predicate StepAt(run: seq<State>, k: nat)
    requires 0 < k < |run|
  {
    Next(run[k - 1], run[k])
  }

  ghost predicate IsRun(run: seq<State>) {
    && run != [] && run[0] == Init()
    && forall k {:trigger StepAt(run, k)} :: 0 < k < |run| ==> StepAt(run, k)
  }

  lemma {:induction false} InvHolds(run: seq<State>, k: nat) returns (h: Holder)
    requires IsRun(run) && k < |run|
    ensures Inv(run[k], h)
  {
    hide Inv, Enabled, Perform, Init;
    if k == 0 {
      h := Nobody;
      InitHolds();
    } else {
      h := InvHolds(run, k - 1);
      assert StepAt(run, k);
      var step :| Enabled(run[k - 1], step) && run[k] == Perform(run[k - 1], step);
      h := StepKeeps(run[k - 1], step, h);
    }
  }

  // ---- what it gives ----

  predicate Holds(s: State, who: Holder) {
    match who
    case Nobody => false
    case Leader(t) => t < |s.writers| && s.writers[t].Leading?
    case Pinner(c) => c < |s.ckpts| && s.ckpts[c].Holding?
  }

  /** At most one thread, flusher or checkpoint, ever holds exclusivity, and the flag says whether one does. */
  lemma OneHolder(run: seq<State>, k: nat, a: Holder, b: Holder)
    requires IsRun(run) && k < |run|
    ensures Holds(run[k], a) && Holds(run[k], b) ==> a == b
    ensures Holds(run[k], a) ==> run[k].flushing
    ensures run[k].flushing ==> exists w :: Holds(run[k], w)
  {
    hide IsRun, Places, Indices, Answers, Flushed;
    var h := InvHolds(run, k);
    if run[k].flushing {
      assert Holds(run[k], h);
    }
  }

  /** No wake-up is lost: whoever sleeps, sleeps while someone holds exclusivity and will wake them. */
  lemma SleepersWillWake(run: seq<State>, k: nat)
    requires IsRun(run) && k < |run|
    ensures forall t :: 0 <= t < |run[k].writers| && run[k].writers[t].Asleep? ==> run[k].flushing
    ensures forall c :: 0 <= c < |run[k].ckpts| && run[k].ckpts[c].Sleeping? ==> run[k].flushing
    ensures run[k].flushing ==> exists w :: Holds(run[k], w)
  {
    hide IsRun, Places, Indices, Answers, Flushed;
    var h := InvHolds(run, k);
    OneHolder(run, k, h, h);
  }

  /** The tickets of a leader's group that it has not settled yet. */
  function Unsettled(w: Writer): seq<nat> {
    if !w.Leading? then []
    else if w.phase.Settling? && w.phase.n <= |w.group| then w.group[w.phase.n..]
    else w.group
  }

  /** Every ticket is in exactly one place: the queue, one leader's unsettled group, or the settled ones. */
  lemma EveryTicketHasOnePlace(run: seq<State>, k: nat, t: nat)
    requires IsRun(run) && k < |run| && t < |run[k].writers|
    ensures var s := run[k];
      var queued, settled := t in s.queue, t in s.settled;
      var led := exists u :: 0 <= u < |s.writers| && t in Unsettled(s.writers[u]);
      && (queued || led || settled) && !(queued && led) && !(queued && settled) && !(led && settled)
  {
    hide IsRun, Indices, Answers, Flushed;
    var h := InvHolds(run, k);
    var s := run[k];
    var l := LeadOf(s.writers, h);
    var g, front := Group(l), |s.writers| - |s.queue|;
    QueueHas(s.queue, front, t);
    forall u | 0 <= u < |s.writers| && t in Unsettled(s.writers[u])
      ensures front - |g| + Progress(l) <= t < front
    {
      assert h == Leader(u);
      LedHas(g, front - |g|, Progress(l), t);
    }
    if front - |g| + Progress(l) <= t < front {
      LedHas(g, front - |g|, Progress(l), t);
      assert t in Unsettled(s.writers[h.t]);
    }
  }

  lemma QueueHas(queue: seq<nat>, front: int, t: nat)
    requires Consecutive(queue, front) && t < front + |queue|
    ensures t in queue <==> front <= t
  {
    if front <= t {
      assert queue[t - front] == t;
    }
  }

  lemma LedHas(g: seq<nat>, from: int, n: nat, t: nat)
    requires Consecutive(g, from) && n <= |g|
    ensures t in g[n..] <==> from + n <= t < from + |g|
  {
    if from + n <= t < from + |g| {
      assert g[n..][t - from - n] == t;
    }
  }

  /**
   * Success is reported only for a commit that is durable and published, and its index is the commit's
   * place in the log; the log is in the order tickets joined the queue, so indices are distinct and
   * increase in that order.
   */
  lemma ReportedIndexIsPlace(run: seq<State>, k: nat, t: nat)
    requires IsRun(run) && k < |run| && t < |run[k].writers|
    requires run[k].writers[t].Returned? && run[k].writers[t].result.Ok?
    ensures var s, i := run[k], run[k].writers[t].result.index;
      1 <= i <= s.shown <= |s.log| && s.log[i - 1] == t && Increasing(s.log)
  {
    hide IsRun, Places, Flushed;
    var h := InvHolds(run, k);
    assert run[k].settled[t] == run[k].writers[t].result;
  }

  /** Earlier tickets get lower indices. */
  lemma IndicesFollowTheQueue(run: seq<State>, k: nat, t: nat, u: nat)
    requires IsRun(run) && k < |run| && t < u < |run[k].writers|
    requires run[k].writers[t].Returned? && run[k].writers[t].result.Ok?
    requires run[k].writers[u].Returned? && run[k].writers[u].result.Ok?
    ensures run[k].writers[t].result.index < run[k].writers[u].result.index
  {
    hide IsRun;
    ReportedIndexIsPlace(run, k, t);
    ReportedIndexIsPlace(run, k, u);
    var s := run[k];
    var i, j := s.writers[t].result.index - 1, s.writers[u].result.index - 1;
  }
}
