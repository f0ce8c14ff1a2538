/** The Raft node: its state as a value, each transition as a function of that value, and the
    mutable node whose methods are proved to perform exactly those transitions. */
module RaftNode {
  import opened Types
  import opened Writes

  datatype LogEntry = LogEntry(term: nat, cmd: Op)

  type Log = seq<LogEntry>

  datatype Role = Follower | Candidate | Leader

  datatype NodeState = NodeState(
    id: nat,
    peers: set<nat>,
    term: nat,
    votedFor: Option<nat>,
    leaderId: Option<nat>,
    role: Role,
    log: Log,
    commitIdx: nat,
    applied: nat,
    state: Map,
    nextIdx: map<nat, nat>,
    matchIdx: map<nat, nat>)

  // ---- the log, indexed from 1 ----

  function LastTerm(log: Log): nat {
    if log == [] then 0 else log[|log| - 1].term
  }

  function TermOf(log: Log, index: nat): Option<nat> {
    if 1 <= index <= |log| then Some(log[index - 1].term) else None
  }

  function TruncateFrom(log: Log, from: nat): Log {
    log[..Min(|log|, Max(from - 1, 0))]
  }

  /** The state machine after `log` has been applied from the start. */
  function Replay(log: Log): Map {
    if log == [] then map[]
    else Apply(log[|log| - 1].cmd, Replay(log[..|log| - 1]), |log|)
  }

  // ---- transitions ----

  function NewNode(id: nat, peers: set<nat>): NodeState {
    NodeState(id, peers, 0, None, None, Follower, [], 0, 0, map[], map[], map[])
  }

  function Quorum(n: nat): nat { n / 2 + 1 }

  /** The ids of an `n`-node cluster. */
  function Ids(n: nat): (ids: set<nat>)
    ensures forall i: nat :: i in ids <==> i < n
    ensures |ids| == n
  {
    if n == 0 then {} else Ids(n - 1) + {n - 1}
  }

  function StartElection(n: NodeState): NodeState {
    n.(term := n.term + 1, votedFor := Some(n.id), role := Candidate, nextIdx := map[], matchIdx := map[])
  }

  function BecomeLeader(n: NodeState): NodeState {
    n.(role := Leader,
       nextIdx := map p | p in n.peers :: |n.log| + 1,
       matchIdx := map p | p in n.peers :: 0)
  }

  /** The candidate tip `(lastTerm, lastIndex)` is at least as up to date as `log`. */
  predicate UpToDate(lastIndex: nat, lastTerm: nat, log: Log) {
    lastTerm > LastTerm(log) || (lastTerm == LastTerm(log) && lastIndex >= |log|)
  }

  predicate Grants(n: NodeState, from: nat, term: nat, lastIndex: nat, lastTerm: nat) {
    && term >= n.term
    && (term == n.term && n.votedFor.Some? ==> n.votedFor.value == from)
    && UpToDate(lastIndex, lastTerm, n.log)
  }

  function RequestVote(n: NodeState, from: nat, term: nat, lastIndex: nat, lastTerm: nat): NodeState {
    var vote := if Grants(n, from, term, lastIndex, lastTerm) then Some(from)
                else if term > n.term then None else n.votedFor;
    n.(term := Max(n.term, term), votedFor := vote, role := if term > n.term then Follower else n.role)
  }

  predicate PrevOk(log: Log, prevIndex: nat, prevTerm: nat) {
    prevIndex == 0 || TermOf(log, prevIndex) == Some(prevTerm)
  }

  /** Entry by entry, from index `next`: skip what is held with the same term, replace the first
      conflicting entry and everything after it, append past the end. */
  function Merge(log: Log, next: nat, entries: Log): Log
    decreases |entries|
  {
    if entries == [] then log
    else match TermOf(log, next)
      case Some(t) =>
        if t == entries[0].term then Merge(log, next + 1, entries[1..])
        else Merge(TruncateFrom(log, next) + [entries[0]], next + 1, entries[1..])
      case None => Merge(log + [entries[0]], next + 1, entries[1..])
  }

  /** What the follower's log becomes, and the reply: `None` when accepted, else where to resume. */
  function AppendLog(log: Log, prevIndex: nat, prevTerm: nat, entries: Log): (Log, Option<nat>) {
    if PrevOk(log, prevIndex, prevTerm) then (Merge(log, prevIndex + 1, entries), None)
    else
      var kept := if TermOf(log, prevIndex).Some? then TruncateFrom(log, prevIndex) else log;
      (kept, Some(|kept| + 1))
  }

  function AppendEntries(n: NodeState, from: nat, term: nat, prevIndex: nat, prevTerm: nat,
                         entries: Log, leaderCommit: nat): (NodeState, Option<nat>)
  {
    if term < n.term then (n, Some(|n.log| + 1))
    else
      var (log, reply) := AppendLog(n.log, prevIndex, prevTerm, entries);
      var votedFor := if term > n.term then None else n.votedFor;
      var safe := Min(leaderCommit, prevIndex + |entries|);
      var commit := if reply.None? then Max(n.commitIdx, safe) else n.commitIdx;
      (n.(term := term, votedFor := votedFor, role := Follower, leaderId := Some(from),
          log := log, commitIdx := commit), reply)
  }

  function Replicas(matchIdx: map<nat, nat>, index: nat): set<nat> {
    set p | p in matchIdx && matchIdx[p] >= index
  }

  predicate Committable(n: NodeState, index: nat) {
    TermOf(n.log, index) == Some(n.term) && |Replicas(n.matchIdx, index)| >= Quorum(|n.peers|)
  }

  /** The highest committable index in `(commitIdx, hi]`, or `commitIdx` when there is none. */
  function HighestCommittable(n: NodeState, hi: nat): nat {
    if hi <= n.commitIdx then n.commitIdx
    else if Committable(n, hi) then hi
    else HighestCommittable(n, hi - 1)
  }

  function AdvanceCommit(n: NodeState): NodeState {
    if n.role != Leader then n else n.(commitIdx := HighestCommittable(n, |n.log|))
  }

  function ApplyCommitted(n: NodeState): NodeState
    decreases |n.log| - n.applied
  {
    if n.applied < n.commitIdx && n.applied < |n.log| then
      ApplyCommitted(n.(state := Apply(n.log[n.applied].cmd, n.state, n.applied + 1),
                        applied := n.applied + 1))
    else n
  }

  function Propose(n: NodeState, cmd: Op): NodeState
    requires n.role == Leader
  {
    n.(log := n.log + [LogEntry(n.term, cmd)], matchIdx := n.matchIdx[n.id := |n.log| + 1])
  }

  // ---- what the transitions mean ----

  /** The first place in `entries` (laid over `log` after `prev`) that is missing from `log` or has
      another term there; the end of `entries` when there is none. */
  function FirstConflict(log: Log, prev: nat, entries: Log): (c: nat)
    requires prev <= |log|
    ensures prev <= c <= prev + |entries| && c <= |log|
    ensures forall k :: prev <= k < c ==> log[k].term == entries[k - prev].term
    ensures c < prev + |entries| ==> c == |log| || log[c].term != entries[c - prev].term
    decreases |entries|
  {
    if entries == [] || prev == |log| || log[prev].term != entries[0].term then prev
    else FirstConflict(log, prev + 1, entries[1..])
  }

  /** Past the first conflict the message's entries replace whatever the follower held; without a
      conflict the log does not move, however much longer than the message it is. */
  lemma {:induction false} MergeReplacesFromFirstConflict(log: Log, prev: nat, entries: Log)
    requires prev <= |log|
    ensures var c := FirstConflict(log, prev, entries);
            Merge(log, prev + 1, entries)
            == if c == prev + |entries| then log else log[..c] + entries[c - prev..]
    decreases |entries|
  {
    if entries == [] {
    } else if prev < |log| && log[prev].term == entries[0].term {
      MergeSkips(log, prev, entries);
      hide Merge;
      MergeReplacesFromFirstConflict(log, prev + 1, entries[1..]);
      var c := FirstConflict(log, prev, entries);
      assert entries[1..][c - (prev + 1)..] == entries[c - prev..];
    } else {
      hide Merge;
      MergeFromHere(log, prev, entries);
    }
  }

  lemma MergeSkips(log: Log, prev: nat, entries: Log)
    requires prev < |log| && entries != [] && log[prev].term == entries[0].term
    ensures Merge(log, prev + 1, entries) == Merge(log, prev + 2, entries[1..])
    ensures FirstConflict(log, prev, entries) == FirstConflict(log, prev + 1, entries[1..])
  {
  }

  lemma MergeFromHere(log: Log, prev: nat, entries: Log)
    requires prev <= |log| && entries != [] && (prev == |log| || log[prev].term != entries[0].term)
    ensures Merge(log, prev + 1, entries) == log[..prev] + entries
  {
    hide Merge;
    MergeOne(log, prev, entries);
    MergeAppends(log[..prev] + [entries[0]], entries[1..]);
    FirstAndRest(log[..prev], entries);
  }

  lemma FirstAndRest<T>(a: seq<T>, xs: seq<T>)
    requires xs != []
    ensures a + [xs[0]] + xs[1..] == a + xs
  {
  }

  lemma MergeOne(log: Log, prev: nat, entries: Log)
    requires prev <= |log| && entries != [] && (prev == |log| || log[prev].term != entries[0].term)
    ensures Merge(log, prev + 1, entries) == Merge(log[..prev] + [entries[0]], prev + 2, entries[1..])
  {
    assert TruncateFrom(log, prev + 1) == log[..prev];
    assert prev == |log| ==> log == log[..prev];
  }

  lemma {:induction false} MergeAppends(log: Log, entries: Log)
    ensures Merge(log, |log| + 1, entries) == log + entries
    decreases |entries|
  {
    if entries == [] {
      assert log + entries == log;
    } else {
      MergeAppends(log + [entries[0]], entries[1..]);
      FirstAndRest(log, entries);
    }
  }

  /** A redelivered message changes nothing. */
  lemma MergeIsIdempotent(log: Log, prev: nat, entries: Log)
    requires prev <= |log|
    ensures var once := Merge(log, prev + 1, entries);
            Merge(once, prev + 1, entries) == once
  {
    MergeReplacesFromFirstConflict(log, prev, entries);
    var once := Merge(log, prev + 1, entries);
    MergeReplacesFromFirstConflict(once, prev, entries);
    var c := FirstConflict(once, prev, entries);
  }

  /**
   * A message is accepted exactly when its term is not behind and the entry before its own matches. A refusal
   * names the index one past what the follower keeps: everything, when it is the sender that is behind, else
   * what comes before the entry that failed to match. A leader that resumes there with the follower's own last
   * term is accepted.
   */
  lemma AppendReply(n: NodeState, from: nat, term: nat, prev: nat, prevTerm: nat, entries: Log, commit: nat)
    ensures var (p, reply) := AppendEntries(n, from, term, prev, prevTerm, entries, commit);
            && (reply.None? <==>
                term >= n.term && (prev == 0 || (prev <= |n.log| && n.log[prev - 1].term == prevTerm)))
            && (reply.Some? ==> reply.value == |p.log| + 1 && p.commitIdx == n.commitIdx)
            && (reply.Some? && term >= n.term ==> p.log == n.log[..Min(|n.log|, prev - 1)])
            && (reply.Some? && term >= n.term ==>
                forall next, c :: AppendEntries(p, from, term, |p.log|, LastTerm(p.log), next, c).1.None?)
            && (reply.None? ==> n.commitIdx <= p.commitIdx && Min(commit, prev + |entries|) <= p.commitIdx
                                && p.commitIdx in {n.commitIdx, commit, prev + |entries|})
            && (if term < n.term then p == n
                else p.term == term && p.role == Follower && p.leaderId == Some(from)
                     && p.votedFor == if term == n.term then n.votedFor else None)
  {
  }

  /** `index` holds an entry of the node's own term that more than half of its peers have matched. */
  ghost predicate MajorityHolds(n: NodeState, index: nat) {
    && 1 <= index <= |n.log| && n.log[index - 1].term == n.term
    && 2 * |set p | p in n.matchIdx && n.matchIdx[p] >= index| > |n.peers|
  }

  lemma CommittableIsMajority(n: NodeState, index: nat)
    ensures Committable(n, index) <==> MajorityHolds(n, index)
  {
    assert Replicas(n.matchIdx, index) == set p | p in n.matchIdx && n.matchIdx[p] >= index;
  }

  /** The commit index a leader moves to is the highest one a majority holds, and it never moves back. */
  lemma {:induction false} HighestCommittableIsMax(n: NodeState, hi: nat)
    ensures var c := HighestCommittable(n, hi);
            && n.commitIdx <= c <= Max(n.commitIdx, hi)
            && (c == n.commitIdx || MajorityHolds(n, c))
            && forall i: nat :: c < i <= hi ==> !MajorityHolds(n, i)
  {
    hide MajorityHolds;
    CommittableIsMajority(n, hi);
    if hi > n.commitIdx && !Committable(n, hi) {
      HighestCommittableIsMax(n, hi - 1);
    }
  }

  // ---- what a log leaves a key holding, read off its positions ----

  /** The last write to `key` is the entry at position `j`. */
  ghost predicate LastWrite(log: Log, key: Bytes, j: nat) {
    && j < |log| && log[j].cmd.key == key
    && forall i :: j < i < |log| ==> log[i].cmd.key != key
  }

  /** The entry at `j` gave `key` the value it still has: it put a value `key` did not hold, and every later
      entry on `key` put that value again. */
  ghost predicate LastChange(log: Log, key: Bytes, j: nat) {
    && j < |log| && log[j].cmd.Put? && log[j].cmd.key == key
    && (forall i :: j < i < |log| && log[i].cmd.key == key ==> log[i].cmd == log[j].cmd)
    && (forall p: nat :: LastWrite(log[..j], key, p) ==> log[p].cmd != log[j].cmd)
  }

  /** A read of `key` after `log` finds `v`: the last write's value if that is a put, else nothing. */
  ghost predicate Finds(log: Log, key: Bytes, v: Option<Bytes>) {
    match v
    case Some(x) => exists j: nat :: LastWrite(log, key, j) && log[j].cmd == Put(key, x)
    case None => forall j: nat :: LastWrite(log, key, j) ==> log[j].cmd == Delete(key)
  }

  /** `m` holds every key's value as last changed in `log`, with the index of that change for a version. */
  ghost predicate Leaves(log: Log, m: Map) {
    forall key ::
      && (key in m <==> exists j: nat :: LastChange(log, key, j))
      && (forall j: nat :: LastChange(log, key, j) ==> key in m && m[key] == Entry(log[j].cmd.value, j + 1))
  }

  function Stamps(log: Log): (ws: seq<Stamped>)
    ensures |ws| == |log|
    ensures forall i :: 0 <= i < |log| ==> ws[i] == Stamped(log[i].cmd, i + 1)
  {
    seq(|log|, i requires 0 <= i < |log| => Stamped(log[i].cmd, i + 1))
  }

  lemma {:induction false} ReplayIsPlay(log: Log)
    ensures Replay(log) == Play(Stamps(log))
  {
    if log != [] {
      var n := |log| - 1;
      ReplayIsPlay(log[..n]);
      assert Stamps(log)[..n] == Stamps(log[..n]);
    }
  }

  lemma LastInStamps(log: Log, key: Bytes, j: nat)
    ensures LastAt(Stamps(log), key, j) <==> LastWrite(log, key, j)
  {
  }

  lemma SettledInStamps(log: Log, key: Bytes, j: nat)
    ensures SettledAt(Stamps(log), key, j) <==> LastChange(log, key, j)
  {
    if j < |log| {
      assert Stamps(log)[..j] == Stamps(log[..j]);
      forall p: nat ensures LastAt(Stamps(log[..j]), key, p) <==> LastWrite(log[..j], key, p) {
        LastInStamps(log[..j], key, p);
      }
    }
  }

  /** The replay of a log binds each key to its last write. */
  lemma ReplayFinds(log: Log, key: Bytes)
    ensures Finds(log, key, if key in Replay(log) then Some(Replay(log)[key].value) else None)
  {
    hide LastAt, LastWrite, Replay, Play;
    ReplayIsPlay(log);
    LastWriteDecides(Stamps(log), key);
    forall j: nat ensures LastAt(Stamps(log), key, j) <==> LastWrite(log, key, j) {
      LastInStamps(log, key, j);
    }
    LastWriteIsOn(log, key);
  }

  lemma LastWriteIsOn(log: Log, key: Bytes)
    ensures forall j: nat :: LastWrite(log, key, j) ==> j < |log| && log[j].cmd.key == key
    ensures forall i: nat, j: nat :: LastWrite(log, key, i) && LastWrite(log, key, j) ==> i == j
  {
  }

  /** What a read finds is determined. */
  lemma FindsOne(log: Log, key: Bytes, v: Option<Bytes>, w: Option<Bytes>)
    requires Finds(log, key, v) && Finds(log, key, w)
    ensures v == w
  {
    hide LastWrite;
    LastWriteIsOn(log, key);
  }

  /** The replay of a log is what its positions say: values and versions. */
  lemma ReplayLeaves(log: Log)
    ensures Leaves(log, Replay(log))
  {
    hide SettledAt, LastChange, Replay, Play;
    ReplayIsPlay(log);
    forall key: Bytes
      ensures key in Replay(log) <==> exists j: nat :: LastChange(log, key, j)
      ensures forall j: nat :: LastChange(log, key, j) ==>
                j < |log| && log[j].cmd.Put? && key in Replay(log)
                && Replay(log)[key] == Entry(log[j].cmd.value, j + 1)
    {
      LastChangeStamps(Stamps(log), key);
      forall j: nat ensures SettledAt(Stamps(log), key, j) <==> LastChange(log, key, j) {
        SettledInStamps(log, key, j);
      }
    }
  }

  /** Nothing else is. */
  lemma OnlyReplayLeaves(log: Log, m: Map)
    requires Leaves(log, m)
    ensures m == Replay(log)
  {
    hide Replay, LastChange;
    ReplayLeaves(log);
    forall key: Bytes
      ensures key in m <==> key in Replay(log)
      ensures key in m ==> m[key] == Replay(log)[key]
    {
      assert key in m <==> exists j: nat :: LastChange(log, key, j);
    }
  }

  lemma {:induction false} ReplayExtends(log: Log, k: nat)
    requires k < |log|
    ensures Replay(log[..k + 1]) == Apply(log[k].cmd, Replay(log[..k]), k + 1)
  {
    assert log[..k + 1][..k] == log[..k];
  }

  /** Applying keeps the state equal to the fold of the log up to `applied`, and goes exactly as
      far as the commit index and the log allow. */
  lemma {:induction false} ApplyCommittedFoldsLog(n: NodeState)
    requires n.applied <= |n.log| && n.state == Replay(n.log[..n.applied])
    ensures var a := ApplyCommitted(n);
            && a.applied == Max(n.applied, Min(n.commitIdx, |n.log|))
            && a == n.(applied := a.applied, state := Replay(n.log[..a.applied]))
            && Leaves(n.log[..a.applied], a.state)
    decreases |n.log| - n.applied
  {
    hide Leaves;
    if n.applied < n.commitIdx && n.applied < |n.log| {
      ReplayExtends(n.log, n.applied);
      ApplyCommittedFoldsLog(n.(state := Apply(n.log[n.applied].cmd, n.state, n.applied + 1),
                                applied := n.applied + 1));
    } else {
      ReplayLeaves(n.log[..n.applied]);
    }
  }

  // ---- the mutable node ----

  class Node {
    const id: nat
    const peers: set<nat>
    var term: nat
    var votedFor: Option<nat>
    var leaderId: Option<nat>
    var role: Role
    var log: Log
    var commitIdx: nat
    var applied: nat
    var state: Map
    var nextIdx: map<nat, nat>
    var matchIdx: map<nat, nat>

    function View(): NodeState
      reads this
    {
      NodeState(id, peers, term, votedFor, leaderId, role, log, commitIdx, applied, state, nextIdx, matchIdx)
    }

    constructor (id: nat, peers: set<nat>)
      ensures View() == NewNode(id, peers)
      ensures term == 0 && votedFor == None && leaderId == None && role == Follower && log == [] && state == map[]
      ensures commitIdx == applied == 0 && nextIdx == map[] && matchIdx == map[]
    {
      this.id, this.peers := id, peers;
      term, votedFor, leaderId, role, log := 0, None, None, Follower, [];
      commitIdx, applied, state := 0, 0, map[];
      nextIdx, matchIdx := map[], map[];
    }

    method StartElectionStep()
      modifies this
      ensures View() == StartElection(old(View()))
      ensures term == old(term) + 1 && votedFor == Some(id) && role == Candidate
      ensures nextIdx == map[] && matchIdx == map[] && log == old(log) && leaderId == old(leaderId)
    {
      term := term + 1;
      votedFor := Some(id);
      role := Candidate;
      nextIdx := map[];
      matchIdx := map[];
    }

    method BecomeLeaderStep()
      modifies this
      ensures View() == BecomeLeader(old(View()))
      ensures role == Leader && term == old(term) && log == old(log) && nextIdx.Keys == matchIdx.Keys == peers
      ensures forall p :: p in peers ==> nextIdx[p] == |log| + 1 && matchIdx[p] == 0
    {
      role := Leader;
      nextIdx := map[];
      matchIdx := map[];
      var rest := peers;
      while rest != {}
        invariant rest <= peers
        invariant View() == old(View()).(role := Leader, nextIdx := nextIdx, matchIdx := matchIdx)
        invariant nextIdx.Keys == matchIdx.Keys == peers - rest
        invariant forall p :: p in nextIdx ==> nextIdx[p] == |log| + 1
        invariant forall p :: p in matchIdx ==> matchIdx[p] == 0
        decreases rest
      {
        var peer :| peer in rest;
        nextIdx := nextIdx[peer := |log| + 1];
        matchIdx := matchIdx[peer := 0];
        rest := rest - {peer};
      }
    }

    method RequestVoteStep(from: nat, senderTerm: nat, senderLastIndex: nat, senderLastTerm: nat)
      returns (granted: bool)
      modifies this
      ensures View() == RequestVote(old(View()), from, senderTerm, senderLastIndex, senderLastTerm)
      ensures granted == Grants(old(View()), from, senderTerm, senderLastIndex, senderLastTerm)
      ensures granted <==>
                && senderTerm >= old(term) && (senderTerm > old(term) || old(votedFor) in {None, Some(from)})
                && (log == [] || senderLastTerm > log[|log| - 1].term
                    || (senderLastTerm == log[|log| - 1].term && senderLastIndex >= |log|))
      ensures log == old(log) && term == Max(old(term), senderTerm)
      ensures votedFor == if granted then Some(from) else if senderTerm > old(term) then None else old(votedFor)
      ensures role == if senderTerm > old(term) then Follower else old(role)
    {
      if senderTerm > term {
        term := senderTerm;
        votedFor := None;
        role := Follower;
      }
      if senderTerm < term {
        return false;
      }
      if votedFor.Some? && votedFor.value != from {
        return false;
      }
      var upToDate := senderLastTerm > LastTerm(log)
                      || (senderLastTerm == LastTerm(log) && senderLastIndex >= |log|);
      if !upToDate {
        return false;
      }
      votedFor := Some(from);
      return true;
    }

    method AppendEntriesStep(from: nat, leaderTerm: nat, prevIndex: nat, prevTerm: nat,
                             entries: Log, leaderCommit: nat)
      returns (reply: Option<nat>)
      modifies this
      ensures (View(), reply)
              == AppendEntries(old(View()), from, leaderTerm, prevIndex, prevTerm, entries, leaderCommit)
    {
      if leaderTerm < term {
        return Some(|log| + 1);
      }
      if leaderTerm > term {
        term := leaderTerm;
        votedFor := None;
      }
      role := Follower;
      leaderId := Some(from);
      var prevOk := if prevIndex == 0 then true else TermOf(log, prevIndex) == Some(prevTerm);
      if !prevOk {
        if TermOf(log, prevIndex).Some? {
          log := TruncateFrom(log, prevIndex);
        }
        return Some(|log| + 1);
      }
      ghost var start := View();
      for i := 0 to |entries|
        invariant View() == start.(log := log)
        invariant Merge(log, prevIndex + 1 + i, entries[i..]) == Merge(start.log, prevIndex + 1, entries)
      {
        var next := prevIndex + 1 + i;
        var e := entries[i];
        assert entries[i..][0] == e && entries[i..][1..] == entries[i + 1..];
        match TermOf(log, next)
        case Some(t) =>
          if t != e.term {
            log := TruncateFrom(log, next) + [e];
          }
        case None =>
          log := log + [e];
      }
      assert entries[|entries|..] == [];
      var lastNew := prevIndex + |entries|;
      var safe := Min(leaderCommit, lastNew);
      if safe > commitIdx {
        commitIdx := safe;
      }
      return None;
    }

    method AdvanceCommitStep()
      modifies this
      ensures View() == AdvanceCommit(old(View()))
      ensures role == Leader ==>
                && old(commitIdx) <= commitIdx <= Max(old(commitIdx), |log|)
                && (commitIdx == old(commitIdx) || MajorityHolds(old(View()), commitIdx))
                && forall i: nat :: commitIdx < i <= |log| ==> !MajorityHolds(old(View()), i)
    {
      if role != Leader {
        return;
      }
      var q := Quorum(|peers|);
      ghost var was := View();
      var first := commitIdx + 1;
      HighestCommittableIsMax(was, |log|);
      hide MajorityHolds;
      forall j: nat ensures Committable(was, j) <==> MajorityHolds(was, j) {
        CommittableIsMajority(was, j);
      }
      var i := first;
      while i <= |log|
        invariant first <= i
        invariant View() == was.(commitIdx := commitIdx)
        invariant was.commitIdx <= commitIdx < i
        invariant commitIdx == was.commitIdx || (commitIdx <= |log| && Committable(was, commitIdx))
        invariant forall j :: commitIdx < j < i ==> !Committable(was, j)
      {
        if TermOf(log, i) == Some(term) {
          var reps := |Replicas(matchIdx, i)|;
          if reps >= q {
            commitIdx := i;
          }
        }
        i := i + 1;
      }
    }

    method ApplyCommittedStep() returns (count: nat)
      modifies this
      ensures View() == ApplyCommitted(old(View()))
      ensures count == View().applied - old(View()).applied
      ensures old(applied <= |log| && state == Replay(log[..applied])) ==>
                && applied == Max(old(applied), Min(commitIdx, |log|)) && log == old(log)
                && Leaves(log[..applied], state)
    {
      hide Leaves;
      if applied <= |log| && state == Replay(log[..applied]) {
        ApplyCommittedFoldsLog(View());
      }
      count := 0;
      while applied < commitIdx && applied < |log|
        invariant ApplyCommitted(View()) == ApplyCommitted(old(View()))
        invariant count == applied - old(applied)
        decreases |log| - applied
      {
        var idx := applied + 1;
        state := Apply(log[idx - 1].cmd, state, idx);
        applied := applied + 1;
        count := count + 1;
      }
    }

    method ProposeStep(cmd: Op) returns (idx: nat)
      requires role == Leader
      modifies this
      ensures View() == Propose(old(View()), cmd)
      ensures idx == |log| && log[idx - 1] == LogEntry(term, cmd)
    {
      log := log + [LogEntry(term, cmd)];
      idx := |log|;
      matchIdx := matchIdx[id := idx];
    }
  }
}
