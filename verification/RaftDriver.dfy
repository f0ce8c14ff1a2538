/** The driver is linearizable: between calls every log is a prefix of one history of acknowledged
    writes, and every node has applied all it holds. */
module RaftDriver {
  import opened Types
  import opened RaftNode
  import opened RaftCatchUp
  import opened RaftCluster

  ghost predicate SortedTerms(h: Log) {
    forall i, j :: 0 <= i <= j < |h| ==> h[i].term <= h[j].term
  }

  ghost predicate NodeInv(c: Cluster, h: Log, i: nat, n: NodeState) {
    && n.id == i && n.peers == c.nodes.Keys
    && n.log <= h && LastTerm(n.log) <= n.term
    && n.commitIdx == n.applied == |n.log|
    && n.state == Replay(n.log)
  }

  ghost function Holders(c: Cluster, h: Log): set<nat>
    requires c.WellFormed()
  {
    set i | i in c.nodes && c.nodes[i].log == h
  }

  ghost predicate LeaderInv(c: Cluster, h: Log, l: nat)
    requires l in c.nodes
  {
    && l !in c.down && c.nodes[l].role == Leader && c.nodes[l].log == h
    && forall i :: i in c.nodes ==> c.nodes[i].term <= c.nodes[l].term
  }

  /** `h` is the sequence of acknowledged writes. */
  ghost predicate Inv(c: Cluster, h: Log) {
    && c.WellFormed() && SortedTerms(h)
    && (forall i {:trigger NodeInv(c, h, i, c.nodes[i])} :: i in c.nodes ==> NodeInv(c, h, i, c.nodes[i]))
    && (h != [] ==> 2 * |Holders(c, h)| > c.N())
    && (c.leader.Some? ==> LeaderInv(c, h, c.leader.value))
  }

  lemma SubsetCard(a: set<nat>, b: set<nat>)
    requires a <= b
    ensures |a| <= |b|
  {
    assert b == a + (b - a);
  }

  // ---- election ----

  lemma TipOfPrefix(h: Log, p: Log)
    requires SortedTerms(h) && p <= h
    ensures LastTerm(p) <= LastTerm(h)
  {
  }

  /** The candidate is the live node whose log ends in the highest term, the longest among those, and the
      lowest id among those. */
  lemma {:induction false} CandidateHasHighestTip(c: Cluster, k: nat)
    requires c.WellFormed() && k <= c.N()
    ensures var best := PickCandidate(c, k);
            && (best.Some? <==> exists i :: i in c.Live() && i < k)
            && (best.Some? ==>
                  forall i :: i in c.Live() && i < k && i != best.value ==>
                    var a, b := c.nodes[i].log, c.nodes[best.value].log;
                    || LastTerm(a) < LastTerm(b)
                    || (LastTerm(a) == LastTerm(b) && |a| < |b|)
                    || (LastTerm(a) == LastTerm(b) && |a| == |b| && best.value < i))
  {
    if k > 0 {
      CandidateHasHighestTip(c, k - 1);
    }
  }

  /** A live majority contains a node that holds the whole history, so the candidate does. */
  lemma CandidateHoldsHistory(c: Cluster, h: Log)
    requires Inv(c, h) && 2 * |c.Live()| > c.N()
    ensures var cand := PickCandidate(c, c.N()); cand.Some? && c.nodes[cand.value].log == h
  {
    CandidateHasHighestTip(c, c.N());
    var live := c.Live();
    var any :| any in live;
    var best := PickCandidate(c, c.N()).value;
    assert NodeInv(c, h, best, c.nodes[best]);
    TipOfPrefix(h, c.nodes[best].log);
    if h != [] {
      var full := Holders(c, h);
      if live * full == {} {
        SubsetCard(live + full, c.nodes.Keys);
      }
      var w :| w in live * full;
      assert w != best ==> !TipAbove(Tip(c.nodes[w]), Tip(c.nodes[best]));
    }
  }

  /** In the order the callee declares, every node grants a candidate that holds the history; in the
      order of the call site, a node grants it exactly when the last term in the node's own log is at
      most the number of entries in the candidate's. */
  lemma WhoGrants(h: Log, n: NodeState, cand: nat, term: nat)
    requires SortedTerms(h) && n.log <= h && term > n.term
    ensures Grants(n, cand, term, |h|, LastTerm(h))
    ensures Grants(n, cand, term, LastTerm(h), |h|) <==> LastTerm(n.log) <= |h|
  {
    TipOfPrefix(h, n.log);
  }

  /** The live nodes other than the candidate that grant it. */
  ghost function Willing(c: Cluster, h: Log, cand: nat, swapped: bool): set<nat> {
    set i | i in Others(c, cand, c.N()) && i in c.nodes && (swapped ==> LastTerm(c.nodes[i].log) <= |h|)
  }

  lemma GrantersAreWilling(c: Cluster, h: Log, id: nat, term: nat, swapped: bool)
    requires Inv(c, h) && id in c.nodes && c.nodes[id].log == h
    requires forall i :: i in c.nodes ==> c.nodes[i].term < term
    ensures Granters(c, id, term, swapped, Others(c, id, c.N())) == Willing(c, h, id, swapped)
  {
    forall i | i in Others(c, id, c.N())
      ensures i in Granters(c, id, term, swapped, Others(c, id, c.N())) <==> i in Willing(c, h, id, swapped)
    {
      assert NodeInv(c, h, i, c.nodes[i]);
      WhoGrants(h, c.nodes[i], id, term);
    }
  }

  /** When a call finds a leader. */
  lemma LeaderFound(c: Cluster, h: Log, swapped: bool)
    requires Inv(c, h)
    ensures LeaderFor(c, swapped).Some? <==>
              && 2 * |c.Live()| > c.N()
              && (c.leader.Some? || 2 * (1 + |Willing(c, h, PickCandidate(c, c.N()).GetOr(0), swapped)|) > c.N())
  {
    if NeedsElection(c) {
      CandidateHoldsHistory(c, h);
      GrantersAreWilling(c, h, PickCandidate(c, c.N()).value, CampaignTerm(c), swapped);
    }
  }

  /** With the arguments in the order the callee declares, a call finds a leader exactly when a
      majority of the cluster is live. */
  lemma DeclaredOrderIsAvailable(c: Cluster, h: Log)
    requires Inv(c, h)
    ensures LeaderFor(c, false).Some? <==> 2 * |c.Live()| > c.N()
  {
    LeaderFound(c, h, false);
    if 2 * |c.Live()| > c.N() {
      CandidateHoldsHistory(c, h);
      var cand := PickCandidate(c, c.N()).value;
      assert c.Live() == {cand} + Willing(c, h, cand, false);
    }
  }

  /** With the arguments as the call site passes them, a call finds a leader exactly when a majority is
      live and either the leader still is, or enough live logs end in a term no larger than the length
      of the history. */
  lemma CallSiteOrderIsAvailableWhen(c: Cluster, h: Log)
    requires Inv(c, h)
    ensures LeaderFor(c, true).Some? <==> Serves(c, h)
  {
    LeaderFound(c, h, true);
    var cand := PickCandidate(c, c.N()).GetOr(0);
    assert ShortTermed(c, h) - {cand} == Willing(c, h, cand, true);
  }

  /** The live nodes whose log ends in a term no larger than the length of the history. */
  ghost function ShortTermed(c: Cluster, h: Log): set<nat> {
    set i | i in c.Live() && i in c.nodes && LastTerm(c.nodes[i].log) <= |h|
  }

  /** The next call finds a leader. */
  ghost predicate Serves(c: Cluster, h: Log)
    requires c.WellFormed()
  {
    && 2 * |c.Live()| > c.N()
    && (c.leader.Some? || 2 * (1 + |ShortTermed(c, h) - {PickCandidate(c, c.N()).GetOr(0)}|) > c.N())
  }

  // ---- what making sure of a leader leaves alone ----

  /** No log, state or index of any node has moved. */
  ghost predicate SameData(c: Cluster, d: Cluster) {
    && c.nodes.Keys == d.nodes.Keys && c.down == d.down
    && forall i {:trigger d.nodes[i]} :: i in c.nodes ==> SameNodeData(c.nodes[i], d.nodes[i])
  }

  ghost predicate SameNodeData(n: NodeState, m: NodeState) {
    && m.id == n.id && m.peers == n.peers && n.term <= m.term
    && m.log == n.log && m.state == n.state && m.commitIdx == n.commitIdx && m.applied == n.applied
  }

  lemma SameDataKeepsInv(c: Cluster, h: Log, d: Cluster)
    requires Inv(c, h) && SameData(c, d)
    requires d.leader.Some? ==> d.leader.value in d.nodes && LeaderInv(d, h, d.leader.value)
    ensures Inv(d, h)
  {
    forall i | i in d.nodes
      ensures NodeInv(d, h, i, d.nodes[i])
    {
      assert NodeInv(c, h, i, c.nodes[i]) && SameNodeData(c.nodes[i], d.nodes[i]);
    }
    forall i | i in Holders(c, h)
      ensures i in Holders(d, h)
    {
      assert SameNodeData(c.nodes[i], d.nodes[i]);
    }
    SubsetCard(Holders(c, h), Holders(d, h));
  }

  lemma CampaignSameData(c: Cluster, id: nat, term: nat, swapped: bool)
    requires id in c.nodes && id !in c.down && forall i :: i in c.nodes ==> c.nodes[i].term < term
    ensures var d := Campaign(c, id, term, swapped);
            && SameData(c, d) && d.nodes[id].term == term
            && (forall i :: i in c.nodes ==> d.nodes[i].term <= term)
            && (Wins(c, id, term, swapped) ==> d.nodes[id].role == Leader)
  {
    assert c.down - {id} == c.down;
  }

  /** Making sure of a leader moves no log and no state; a leader it elects has a term one above the
      highest there was. */
  lemma EnsureLeaderKeeps(c: Cluster, h: Log, swapped: bool)
    requires Inv(c, h)
    ensures var d := EnsureLeader(c, swapped);
            && Inv(d, h) && SameData(c, d) && d.leader == LeaderFor(c, swapped)
            && (d.leader.Some? && c.leader.None? ==>
                  && (forall i :: i in c.nodes ==> c.nodes[i].term < d.nodes[d.leader.value].term)
                  && (exists i :: i in c.nodes && c.nodes[i].term + 1 == d.nodes[d.leader.value].term))
  {
    if NeedsElection(c) {
      CandidateHoldsHistory(c, h);
      CampaignSameData(c, PickCandidate(c, c.N()).value, CampaignTerm(c), swapped);
    }
    SameDataKeepsInv(c, h, EnsureLeader(c, swapped));
  }

  // ---- bringing the live nodes to one history ----

  /** `m` is `n` with its log brought to `h`, and nothing yet applied. */
  ghost predicate BroughtTo(n: NodeState, m: NodeState, h: Log, term: nat) {
    && m.id == n.id && m.peers == n.peers && m.log == h && m.term <= term
    && m.applied == n.applied && m.state == n.state && n.commitIdx <= m.commitIdx <= |h|
    && LastTerm(h) <= m.term
  }

  lemma PrefixLogsMatch(h: Log, p: Log)
    requires p <= h
    ensures LogsMatch(h, p)
  {
  }

  lemma PeerReaches(leader: Source, lterm: nat, peer: NodeState, h: Log)
    requires leader.log == h && peer.log <= h && peer.term <= lterm && peer.commitIdx <= |peer.log|
    requires LastTerm(h) <= lterm
    ensures CatchUp(leader, peer, |h|, lterm).1
    ensures BroughtTo(peer, CatchUp(leader, peer, |h|, lterm).0, h, lterm)
  {
    PrefixLogsMatch(h, peer.log);
    CatchUpRepairs(leader, peer, |h|, lterm);
    Reached(leader, lterm, peer, h, CatchUp(leader, peer, |h|, lterm).0);
  }

  lemma Reached(leader: Source, lterm: nat, peer: NodeState, h: Log, p: NodeState)
    requires leader.log == h && peer.log <= h && peer.term <= lterm && peer.commitIdx <= |peer.log|
    requires LastTerm(h) <= lterm
    requires if |h| == 0 then p == peer
             else
               && h[..|h|] <= p.log && (p.log <= peer.log || p.log == h[..|h|])
               && KeepsRest(leader, peer, p, |h|, lterm)
    ensures BroughtTo(peer, p, h, lterm)
  {
    assert h[..|h|] == h;
  }

  /** Committing through the whole log applies exactly what was missing. */
  lemma CommitToTip(n: NodeState, h: Log)
    requires n.log == h && n.applied <= |h| && n.commitIdx <= |h| && n.state == Replay(h[..n.applied])
    ensures AtTip(n, CommitTo(n, |h|), h)
  {
    ApplyCommittedFoldsLog(n.(commitIdx := Max(n.commitIdx, |h|)));
    assert h[..|h|] == h;
  }

  /** A live node brought to `h'` ends up with all of it applied; the others do not move. */
  lemma ApplyAllNode(c: Cluster, h: Log, d: Cluster, h': Log, l: nat, i: nat)
    requires Inv(c, h) && l in c.Live() && i in c.nodes && h <= h'
    requires d.nodes.Keys == c.nodes.Keys && d.down == c.down
    requires BroughtTo(c.nodes[l], d.nodes[l], h', c.nodes[l].term)
    requires i in c.Live() ==> BroughtTo(c.nodes[i], d.nodes[i], h', c.nodes[l].term)
    ensures i in c.Live() ==> AtTip(d.nodes[i], ApplyAll(d.nodes, d.Live(), l, |h'|)[i], h')
    ensures i !in c.Live() ==> ApplyAll(d.nodes, d.Live(), l, |h'|)[i] == d.nodes[i]
  {
    assert NodeInv(c, h, i, c.nodes[i]);
    if i in c.Live() {
      assert h'[..c.nodes[i].applied] == c.nodes[i].log;
      CommitToTip(d.nodes[i], h');
    }
  }

  /** Once every live node has applied all of `h'`, the invariant holds with `h'` as the history. */
  lemma AllAtTip(c: Cluster, h: Log, d: Cluster, h': Log, l: nat, e: Cluster)
    requires Inv(c, h) && c.leader == Some(l) && 2 * |c.Live()| > c.N()
    requires h <= h' && SortedTerms(h') && LastTerm(h') <= c.nodes[l].term
    requires d.nodes.Keys == e.nodes.Keys == c.nodes.Keys && e.down == c.down && e.leader == c.leader
    requires forall i {:trigger d.nodes[i]} :: i in c.nodes ==>
               if i in c.Live() then BroughtTo(c.nodes[i], d.nodes[i], h', c.nodes[l].term)
               else d.nodes[i] == c.nodes[i]
    requires forall i {:trigger e.nodes[i]} :: i in c.nodes ==>
               if i in c.Live() then AtTip(d.nodes[i], e.nodes[i], h') else e.nodes[i] == d.nodes[i]
    requires d.nodes[l].role == Leader && d.nodes[l].term == c.nodes[l].term
    ensures Inv(e, h')
  {
    forall i | i in e.nodes
      ensures NodeInv(e, h', i, e.nodes[i]) && e.nodes[i].term <= e.nodes[l].term
    {
      assert NodeInv(c, h, i, c.nodes[i]);
      if i in c.Live() {
        assert BroughtTo(c.nodes[i], d.nodes[i], h', c.nodes[l].term) && AtTip(d.nodes[i], e.nodes[i], h');
      }
    }
    assert c.Live() <= Holders(e, h');
    SubsetCard(c.Live(), Holders(e, h'));
  }

  /** `m` is `n` with all of its log `h` committed and applied. */
  ghost predicate AtTip(n: NodeState, m: NodeState, h: Log) {
    && m.id == n.id && m.peers == n.peers && m.term == n.term && m.role == n.role
    && m.log == h && m.commitIdx == m.applied == |h| && m.state == Replay(h)
  }

  // ---- writes ----

  /** Every live node after a write has been sent out. */
  lemma WriteReaches(c: Cluster, h: Log, l: nat, op: Op, i: nat)
    requires Inv(c, h) && c.leader == Some(l) && i in c.nodes && i in Others(c, l, c.N())
    ensures var h' := h + [LogEntry(c.nodes[l].term, op)];
            var leader := Propose(c.nodes[l], op);
            && leader.log == h'
            && CatchUp(SourceOf(leader), c.nodes[i], |h'|, leader.term).1
            && BroughtTo(c.nodes[i], CatchUp(SourceOf(leader), c.nodes[i], |h'|, leader.term).0, h', leader.term)
  {
    assert NodeInv(c, h, i, c.nodes[i]);
    var h' := h + [LogEntry(c.nodes[l].term, op)];
    PeerReaches(SourceOf(Propose(c.nodes[l], op)), c.nodes[l].term, c.nodes[i], h');
  }

  lemma EveryPeerAcks(c: Cluster, h: Log, l: nat, op: Op)
    requires Inv(c, h) && c.leader == Some(l)
    ensures Others(c, l, c.N()) <= c.nodes.Keys
    ensures var nodes := c.nodes[l := Propose(c.nodes[l], op)];
            Caught(nodes, Others(c, l, c.N()), l, |h| + 1, c.nodes[l].term) == Others(c, l, c.N())
  {
    hide CatchUp, Merge, Holders, Replay;
    var nodes := c.nodes[l := Propose(c.nodes[l], op)];
    forall i | i in Others(c, l, c.N())
      ensures i in c.nodes && CatchUp(SourceOf(nodes[l]), nodes[i], |h| + 1, c.nodes[l].term).1
    {
      WriteReaches(c, h, l, op, i);
    }
  }

  lemma LeaderAndOthers(c: Cluster, h: Log, l: nat)
    requires Inv(c, h) && c.leader == Some(l)
    ensures c.Live() == Others(c, l, c.N()) + {l} && |c.Live()| == |Others(c, l, c.N())| + 1
  {
    assert c.Live() == Others(c, l, c.N()) + {l};
  }

  /** The leader, with every live peer's acknowledgement recorded, commits the entry it just proposed. */
  lemma LeaderCommits(c: Cluster, h: Log, l: nat, op: Op)
    requires Inv(c, h) && c.leader == Some(l) && 2 * |c.Live()| > c.N()
    ensures var h' := h + [LogEntry(c.nodes[l].term, op)];
            var n := AdvanceCommit(RecordAcks(Propose(c.nodes[l], op), Others(c, l, c.N()), |h'|));
            && n.commitIdx == |h'| && n.role == Leader && n.term == c.nodes[l].term
            && BroughtTo(c.nodes[l], n, h', c.nodes[l].term)
  {
    hide Holders, Replay, Merge;
    assert NodeInv(c, h, l, c.nodes[l]);
    var n := RecordAcks(Propose(c.nodes[l], op), Others(c, l, c.N()), |h| + 1);
    var reps := Replicas(n.matchIdx, |h| + 1);
    assert c.Live() <= reps;
    SubsetCard(c.Live(), reps);
    assert Committable(n, |h| + 1);
  }

  lemma ExtendsSorted(h: Log, e: LogEntry)
    requires SortedTerms(h) && LastTerm(h) <= e.term
    ensures SortedTerms(h + [e])
  {
  }

  /** The cluster with the entry replicated and committed at the leader, before the others commit it. */
  ghost function Sent(c: Cluster, l: nat, op: Op): Cluster
    requires l in c.nodes && c.nodes[l].role == Leader && Others(c, l, c.N()) <= c.nodes.Keys
  {
    var counted := Replicate(c.nodes[l := Propose(c.nodes[l], op)], Others(c, l, c.N()), l);
    c.(nodes := counted[l := AdvanceCommit(counted[l])])
  }

  lemma SentReaches(c: Cluster, h: Log, l: nat, op: Op, i: nat)
    requires Inv(c, h) && c.leader == Some(l) && 2 * |c.Live()| > c.N() && i in c.nodes
    requires Others(c, l, c.N()) <= c.nodes.Keys
    ensures var h' := h + [LogEntry(c.nodes[l].term, op)];
            var d := Sent(c, l, op);
            && d.nodes.Keys == c.nodes.Keys
            && (if i in c.Live() then BroughtTo(c.nodes[i], d.nodes[i], h', c.nodes[l].term)
                else d.nodes[i] == c.nodes[i])
            && (i == l ==>
                  d.nodes[l].role == Leader && d.nodes[l].term == c.nodes[l].term && d.nodes[l].commitIdx == |h'|)
  {
    hide CatchUp, Merge, AppendEntries, Round;
    if i == l {
      EveryPeerAcks(c, h, l, op);
      LeaderCommits(c, h, l, op);
    } else if i in c.Live() {
      WriteReaches(c, h, l, op, i);
    }
  }

  lemma FinishApplies(c: Cluster, l: nat, idx: nat)
    requires l in c.nodes && AdvanceCommit(c.nodes[l]).commitIdx == idx
    ensures var nodes := c.nodes[l := AdvanceCommit(c.nodes[l])];
            Finish(c, l, idx) == (c.(nodes := ApplyAll(nodes, c.Live(), l, idx)), Ok(idx))
  {
  }

  lemma CommitIsSentThenApplied(c: Cluster, h: Log, l: nat, op: Op)
    requires Inv(c, h) && c.leader == Some(l) && 2 * |c.Live()| > c.N()
    requires Others(c, l, c.N()) <= c.nodes.Keys
    ensures l in Sent(c, l, op).nodes
    ensures var d := Sent(c, l, op);
            CommitUnder(c, l, op) == (d.(nodes := ApplyAll(d.nodes, c.Live(), l, |h| + 1)), Ok(|h| + 1))
  {
    hide Inv, CatchUp, Merge, HighestCommittable, Finish, Round, AppendEntries;
    EveryPeerAcks(c, h, l, op);
    LeaderAndOthers(c, h, l);
    SentReaches(c, h, l, op, l);
    var counted := c.(nodes := Replicate(c.nodes[l := Propose(c.nodes[l], op)], Others(c, l, c.N()), l));
    assert counted.nodes.Keys == c.nodes.Keys && counted.Live() == c.Live();
    FinishApplies(counted, l, |h| + 1);
  }

  /** A write under a live majority's leader is committed at the next index, on every live node. */
  lemma CommitUnderResult(c: Cluster, h: Log, l: nat, op: Op)
    requires Inv(c, h) && c.leader == Some(l) && 2 * |c.Live()| > c.N()
    ensures var h' := h + [LogEntry(c.nodes[l].term, op)];
            var (e, r) := CommitUnder(c, l, op);
            && r == Ok(|h'|) && Inv(e, h') && e.leader == c.leader && e.down == c.down && e.nodes.Keys == c.nodes.Keys
            && forall i :: i in c.Live() ==> i in e.nodes && e.nodes[i].log == h'
  {
    var h' := h + [LogEntry(c.nodes[l].term, op)];
    EveryPeerAcks(c, h, l, op);
    CommitIsSentThenApplied(c, h, l, op);
    SentThenApplied(c, h, l, op, Sent(c, l, op), h');
  }

  /** After a write the leader's record of what each live node holds is what that node holds. */
  lemma AcksAreHeld(c: Cluster, h: Log, l: nat, op: Op)
    requires Inv(c, h) && c.leader == Some(l) && 2 * |c.Live()| > c.N()
    ensures var e := CommitUnder(c, l, op).0;
            forall i :: i in c.Live() ==>
              && i in e.nodes && l in e.nodes && i in e.nodes[l].matchIdx
              && e.nodes[l].matchIdx[i] == |e.nodes[i].log| == |h| + 1
  {
    hide Inv, CatchUp, Merge, HighestCommittable, Finish, Round, AppendEntries;
    EveryPeerAcks(c, h, l, op);
    LeaderAndOthers(c, h, l);
    CommitUnderResult(c, h, l, op);
    CommitIsSentThenApplied(c, h, l, op);
    LeaderRecords(c, h, l, op);
    ApplyKeepsMatches(Sent(c, l, op).nodes[l].(commitIdx := Max(Sent(c, l, op).nodes[l].commitIdx, |h| + 1)));
  }

  lemma LeaderRecords(c: Cluster, h: Log, l: nat, op: Op)
    requires Inv(c, h) && c.leader == Some(l) && Others(c, l, c.N()) <= c.nodes.Keys
    ensures var m := Sent(c, l, op).nodes[l].matchIdx;
            forall i :: i in c.Live() ==> i in m && m[i] == |h| + 1
  {
    hide CatchUp, Merge, HighestCommittable, Round, AppendEntries;
    EveryPeerAcks(c, h, l, op);
    LeaderAndOthers(c, h, l);
    assert NodeInv(c, h, l, c.nodes[l]);
  }

  lemma {:induction false} ApplyKeepsMatches(n: NodeState)
    ensures ApplyCommitted(n).matchIdx == n.matchIdx
    decreases |n.log| - n.applied
  {
    if n.applied < n.commitIdx && n.applied < |n.log| {
      ApplyKeepsMatches(n.(state := Apply(n.log[n.applied].cmd, n.state, n.applied + 1), applied := n.applied + 1));
    }
  }

  lemma SentThenApplied(c: Cluster, h: Log, l: nat, op: Op, d: Cluster, h': Log)
    requires Inv(c, h) && c.leader == Some(l) && 2 * |c.Live()| > c.N()
    requires Others(c, l, c.N()) <= c.nodes.Keys
    requires d == Sent(c, l, op) && h' == h + [LogEntry(c.nodes[l].term, op)]
    ensures l in d.nodes && Inv(d.(nodes := ApplyAll(d.nodes, c.Live(), l, |h'|)), h')
    ensures d.nodes.Keys == c.nodes.Keys
    ensures forall i :: i in c.Live() ==> i in d.nodes && ApplyAll(d.nodes, c.Live(), l, |h'|)[i].log == h'
  {
    SentReaches(c, h, l, op, l);
    forall i | i in c.nodes
      ensures if i in c.Live() then BroughtTo(c.nodes[i], d.nodes[i], h', c.nodes[l].term) else d.nodes[i] == c.nodes[i]
    {
      SentReaches(c, h, l, op, i);
    }
    assert d.Live() == c.Live();
    var e := d.(nodes := ApplyAll(d.nodes, c.Live(), l, |h'|));
    forall i | i in c.nodes
      ensures if i in c.Live() then AtTip(d.nodes[i], e.nodes[i], h') else e.nodes[i] == d.nodes[i]
    {
      ApplyAllNode(c, h, d, h', l, i);
    }
    assert NodeInv(c, h, l, c.nodes[l]);
    ExtendsSorted(h, LogEntry(c.nodes[l].term, op));
    AllAtTip(c, h, d, h', l, e);
  }

  // ---- reads ----

  /** A leader's sync leaves every live node with all of the history applied. */
  lemma SyncResult(c: Cluster, h: Log, l: nat)
    requires Inv(c, h) && c.leader == Some(l) && 2 * |c.Live()| > c.N()
    ensures var e := Sync(c, l);
            && Inv(e, h) && e.leader == c.leader && e.down == c.down && e.nodes.Keys == c.nodes.Keys
            && e.nodes[l].term == c.nodes[l].term
            && forall i :: i in c.Live() ==> i in e.nodes && e.nodes[i].state == Replay(h)
  {
    assert NodeInv(c, h, l, c.nodes[l]);
    var d := c.(nodes := CatchUpAll(c.nodes, Others(c, l, c.N()), l, |h|, c.nodes[l].term));
    assert d.Live() == c.Live();
    var e := Sync(c, l);
    forall i | i in c.nodes
      ensures if i in c.Live() then BroughtTo(c.nodes[i], d.nodes[i], h, c.nodes[l].term) else d.nodes[i] == c.nodes[i]
    {
      assert NodeInv(c, h, i, c.nodes[i]);
      if i in Others(c, l, c.N()) {
        PeerReaches(SourceOf(c.nodes[l]), c.nodes[l].term, c.nodes[i], h);
      }
    }
    forall i | i in c.nodes
      ensures if i in c.Live() then AtTip(d.nodes[i], e.nodes[i], h) else e.nodes[i] == d.nodes[i]
    {
      ApplyAllNode(c, h, d, h, l, i);
    }
    AllAtTip(c, h, d, h, l, e);
  }

  // ---- every call ----

  datatype Call = Write(op: Op) | Read(key: Bytes) | ScanFor(prefix: Bytes) | FailNode(id: nat) | ReviveNode(id: nat)

  datatype Reply =
    | Wrote(r: Outcome<nat>) | ReadValue(v: Outcome<Option<Bytes>>) | ScanValues(m: Outcome<map<Bytes, Bytes>>) | Done

  function Step(c: Cluster, call: Call): (Cluster, Reply)
    requires c.WellFormed()
  {
    match call
    case Write(op) => var (d, r) := Commit(c, op, true); (d, Wrote(r))
    case Read(key) => var (d, v) := Get(c, key, true); (d, ReadValue(v))
    case ScanFor(prefix) => var (d, m) := Scan(c, prefix, true); (d, ScanValues(m))
    case FailNode(id) => (Fail(c, id), Done)
    case ReviveNode(id) => (Revive(c, id), Done)
  }

  /** `m` has, of the keys that start with `prefix`, exactly those a read after `h` finds, with what it finds. */
  ghost predicate FindsUnder(h: Log, prefix: Bytes, m: map<Bytes, Bytes>) {
    forall k ::
      if k in m then prefix <= k && Finds(h, k, Some(m[k])) else prefix <= k ==> Finds(h, k, None)
  }

  lemma ReplayFindsUnder(h: Log, prefix: Bytes)
    ensures FindsUnder(h, prefix, Prefixed(Replay(h), prefix))
  {
    hide Finds, Replay;
    forall k: Bytes
      ensures var m := Prefixed(Replay(h), prefix);
              if k in m then prefix <= k && Finds(h, k, Some(m[k])) else prefix <= k ==> Finds(h, k, None)
    {
      ReplayFinds(h, k);
    }
  }

  /** What a call must answer and do, told by the history of acknowledged writes alone: a write is either
      appended to it and acknowledged at its position, or refused and nowhere; a read sees exactly it. */
  ghost predicate Answers(h: Log, call: Call, reply: Reply, h': Log) {
    match call
    case Write(op) =>
      || (reply == Wrote(NoLeader) && h' == h)
      || (reply == Wrote(Ok(|h| + 1)) && |h'| == |h| + 1 && h <= h' && h'[|h|].cmd == op)
    case Read(key) =>
      h' == h && (reply == ReadValue(NoLeader) || (reply.ReadValue? && reply.v.Ok? && Finds(h, key, reply.v.value)))
    case ScanFor(prefix) =>
      && h' == h
      && (|| reply == ScanValues(NoLeader)
          || (reply.ScanValues? && reply.m.Ok? && FindsUnder(h, prefix, reply.m.value)))
    case _ => h' == h && reply == Done
  }

  lemma StepWrite(c: Cluster, h: Log, op: Op) returns (h': Log)
    requires Inv(c, h)
    ensures var (d, reply) := Step(c, Write(op));
            && Inv(d, h') && Answers(h, Write(op), reply, h') && (reply == Wrote(NoLeader) ==> SameData(c, d))
            && (reply == Wrote(NoLeader) <==> !Serves(c, h))
  {
    hide CommitUnder, Sync, Holders, Finish, Serves;
    CallSiteOrderIsAvailableWhen(c, h);
    EnsureLeaderKeeps(c, h, true);
    var d := EnsureLeader(c, true);
    if d.leader.Some? {
      assert d.Live() == c.Live() && 2 * |c.Live()| > c.N();
      CommitUnderResult(d, h, d.leader.value, op);
      h' := h + [LogEntry(d.nodes[d.leader.value].term, op)];
    } else {
      h' := h;
    }
  }

  lemma StepRead(c: Cluster, h: Log, key: Bytes)
    requires Inv(c, h)
    ensures var (d, reply) := Step(c, Read(key));
            && Inv(d, h) && Answers(h, Read(key), reply, h) && (reply == ReadValue(NoLeader) ==> SameData(c, d))
            && (reply == ReadValue(NoLeader) <==> !Serves(c, h))
  {
    hide Finds, Serves, Sync, EnsureLeader, CommitUnder, CatchUpAll, Holders, LeaderInv, CatchUp, PickCandidate, Finish;
    CallSiteOrderIsAvailableWhen(c, h);
    EnsureLeaderKeeps(c, h, true);
    var d := EnsureLeader(c, true);
    if d.leader.Some? {
      assert d.Live() == c.Live() && 2 * |c.Live()| > c.N();
      SyncResult(d, h, d.leader.value);
      ReplayFinds(h, key);
    }
  }

  lemma StepScan(c: Cluster, h: Log, prefix: Bytes)
    requires Inv(c, h)
    ensures var (d, reply) := Step(c, ScanFor(prefix));
            && Inv(d, h) && Answers(h, ScanFor(prefix), reply, h) && (reply == ScanValues(NoLeader) ==> SameData(c, d))
            && (reply == ScanValues(NoLeader) <==> !Serves(c, h))
  {
    hide FindsUnder, Serves, Sync, EnsureLeader, CommitUnder, CatchUpAll, Holders, LeaderInv, CatchUp, PickCandidate,
         Finish, Prefixed;
    CallSiteOrderIsAvailableWhen(c, h);
    EnsureLeaderKeeps(c, h, true);
    var d := EnsureLeader(c, true);
    if d.leader.Some? {
      assert d.Live() == c.Live() && 2 * |c.Live()| > c.N();
      SyncResult(d, h, d.leader.value);
      ReplayFindsUnder(h, prefix);
    }
  }

  /** Every call keeps the invariant and answers from the history; it is refused exactly when no leader is
      found, and then moves no log and no state; it never panics. */
  lemma StepAnswers(c: Cluster, h: Log, call: Call) returns (h': Log)
    requires Inv(c, h)
    ensures var (d, reply) := Step(c, call);
            && Inv(d, h') && h <= h' && Answers(h, call, reply, h')
            && (reply == Wrote(NoLeader) || reply == ReadValue(NoLeader) || reply == ScanValues(NoLeader) ==>
                  SameData(c, d))
            && (reply == Wrote(NoLeader) || reply == ReadValue(NoLeader) || reply == ScanValues(NoLeader) <==>
                  (call.Write? || call.Read? || call.ScanFor?) && !Serves(c, h))
  {
    hide Serves, Finds, FindsUnder, Commit, Get, Scan, Holders;
    match call {
      case Write(op) => h' := StepWrite(c, h, op);
      case Read(key) => StepRead(c, h, key); h' := h;
      case ScanFor(prefix) => StepScan(c, h, prefix); h' := h;
      case FailNode(id) =>
        h' := h;
        FailKeeps(c, h, Fail(c, id));
      case ReviveNode(id) =>
        h' := h;
        FailKeeps(c, h, Revive(c, id));
    }
  }

  lemma FailKeeps(c: Cluster, h: Log, d: Cluster)
    requires Inv(c, h) && d.nodes == c.nodes
    requires d.leader == None || (d.leader == c.leader && d.leader.value !in d.down)
    ensures Inv(d, h)
  {
    assert Holders(d, h) == Holders(c, h);
    forall i | i in d.nodes
      ensures NodeInv(d, h, i, d.nodes[i])
    {
      assert NodeInv(c, h, i, c.nodes[i]);
    }
  }

  lemma NewCluster(n: nat)
    ensures Inv(New(n), [])
  {
    var c := New(n);
    assert c.nodes.Keys == Ids(n);
    forall i | i in c.nodes
      ensures NodeInv(c, [], i, c.nodes[i])
    {
    }
  }

  /** The cluster and the replies after `calls`, in order. */
  ghost function Exec(c: Cluster, calls: seq<Call>): (Cluster, seq<Reply>)
    requires c.WellFormed()
    decreases |calls|
  {
    if calls == [] then (c, [])
    else
      var (d, reply) := Step(c, calls[0]);
      if !d.WellFormed() then (d, [reply])
      else var (e, rest) := Exec(d, calls[1..]); (e, [reply] + rest)
  }

  /** `replies` are the answers of one sequential map: each write takes the next index, each read sees
      exactly the writes acknowledged before it. */
  ghost predicate Linear(h: Log, calls: seq<Call>, replies: seq<Reply>, end: Log)
    decreases |calls|
  {
    if calls == [] then replies == [] && end == h
    else
      && replies != []
      && exists h' :: h <= h' && Answers(h, calls[0], replies[0], h') && Linear(h', calls[1..], replies[1..], end)
  }

  /** Every run of the driver is linearizable, in the order of its calls. */
  lemma {:induction false} RunsAreLinear(c: Cluster, h: Log, calls: seq<Call>) returns (end: Log)
    requires Inv(c, h)
    ensures var (d, replies) := Exec(c, calls);
            h <= end && Inv(d, end) && Linear(h, calls, replies, end)
    decreases |calls|
  {
    if calls == [] {
      end := h;
    } else {
      var h' := StepAnswers(c, h, calls[0]);
      var (d, reply) := Step(c, calls[0]);
      end := RunsAreLinear(d, h', calls[1..]);
      var (e, rest) := Exec(d, calls[1..]);
      assert ([reply] + rest)[1..] == rest;
    }
  }

  // ---- a run that loses availability ----

  /** With three nodes all holding the empty log, the lowest live id campaigns, and wins with either
      order of arguments. */
  lemma EmptyElectionWinner(c: Cluster)
    requires Inv(c, []) && c.nodes.Keys == {0, 1, 2} && c.leader.None? && |c.Live()| >= 2
    ensures LeaderFor(c, true) == Some(if 0 in c.Live() then 0 else 1)
  {
    hide PickCandidate, Willing, Inv, Wins;
    EmptyLogs(c);
    LeaderFound(c, [], true);
    FirstLive(c);
    AllWilling(c, PickCandidate(c, 3).value);
  }

  lemma EmptyLogs(c: Cluster)
    requires Inv(c, []) && c.nodes.Keys == {0, 1, 2}
    ensures c.WellFormed() && c.N() == 3
    ensures forall i :: i in c.nodes ==> c.nodes[i].log == []
  {
    forall i | i in c.nodes ensures c.nodes[i].log == [] {
      assert NodeInv(c, [], i, c.nodes[i]);
    }
  }

  lemma AllWilling(c: Cluster, id: nat)
    requires c.WellFormed() && id in c.Live() && forall i :: i in c.nodes ==> c.nodes[i].log == []
    ensures 1 + |Willing(c, [], id, true)| == |c.Live()|
  {
    assert c.Live() == {id} + Willing(c, [], id, true);
  }

  lemma EmptyElection(c: Cluster)
    requires Inv(c, []) && c.nodes.Keys == {0, 1, 2} && c.leader.None? && |c.Live()| >= 2
    ensures var d := EnsureLeader(c, true);
            && Inv(d, []) && SameData(c, d) && d.leader == LeaderFor(c, true)
            && d.leader == Some(if 0 in c.Live() then 0 else 1)
            && forall i :: i in c.nodes ==> c.nodes[i].term < d.nodes[d.leader.value].term
  {
    EnsureLeaderKeeps(c, [], true);
    EmptyElectionWinner(c);
  }

  lemma FirstLive(c: Cluster)
    requires c.WellFormed() && c.nodes.Keys == {0, 1, 2} && c.N() == 3 && |c.Live()| >= 2
    requires Tip(c.nodes[0]) == Tip(c.nodes[1]) == Tip(c.nodes[2])
    ensures PickCandidate(c, 3) == Some(if 0 in c.Live() then 0 else 1)
  {
    SubsetCard(c.Live() - {0, 1}, {2});
    assert c.Live() - {0, 1} != c.Live();
    var none := PickCandidate(c, 0);
    var one := PickCandidate(c, 1);
    var two := PickCandidate(c, 2);
  }

  ghost predicate Leads(c: Cluster, call: Call, d: Cluster) {
    c.WellFormed() && d == Step(c, call).0
  }

  /** A bare majority is live, the call site finds no leader, and the declared order would find one. */
  ghost predicate Lost(c: Cluster) {
    && c.WellFormed() && |c.Live()| == 2 && c.N() == 3
    && LeaderFor(c, true).None? && LeaderFor(c, false).Some?
  }

  lemma LostAfterWrite(c: Cluster, h: Log)
    requires Inv(c, h) && c.nodes.Keys == {0, 1, 2} && c.leader.None? && c.down == {0}
    requires c.nodes[1].log == c.nodes[2].log == h && |h| < LastTerm(h)
    ensures Lost(c)
  {
    assert c.N() == 3;
    assert c.Live() == {1, 2};
    LeaderFound(c, h, true);
    DeclaredOrderIsAvailable(c, h);
    assert Willing(c, h, PickCandidate(c, c.N()).GetOr(0), true) == {};
  }

  lemma WriteAfterFailure(c: Cluster, op: Op) returns (d: Cluster, h: Log)
    requires Inv(c, []) && c.nodes.Keys == {0, 1, 2} && c.leader.None? && c.down == {0} && c.nodes[0].term > 0
    ensures Leads(c, Write(op), d)
    ensures Inv(d, h) && d.nodes.Keys == {0, 1, 2} && d.leader == Some(1) && d.down == {0}
    ensures d.nodes[1].log == d.nodes[2].log == h && |h| < LastTerm(h)
  {
    assert c.Live() == {1, 2};
    EmptyElection(c);
    var e := EnsureLeader(c, true);
    assert e.Live() == {1, 2};
    CommitUnderResult(e, [], 1, op);
    h := [LogEntry(e.nodes[1].term, op)];
    assert [] + h == h;
    d := Step(c, Write(op)).0;
  }

  lemma FirstRead(key: Bytes) returns (d: Cluster)
    ensures Leads(New(3), Read(key), d)
    ensures Inv(d, []) && d.nodes.Keys == {0, 1, 2} && d.leader == Some(0) && d.down == {} && d.nodes[0].term > 0
  {
    hide Sync, EnsureLeader, LeaderFor, CommitUnder, CatchUpAll, Holders, LeaderInv, CatchUp;
    NewCluster(3);
    var c := New(3);
    assert c.nodes.Keys == Ids(3) == {0, 1, 2};
    assert c.Live() == {0, 1, 2};
    EmptyElection(c);
    var e := EnsureLeader(c, true);
    assert e.Live() == {0, 1, 2};
    SyncResult(e, [], 0);
    d := Step(c, Read(key)).0;
  }

  lemma Toggled(c: Cluster, h: Log, call: Call) returns (d: Cluster)
    requires Inv(c, h) && (call.FailNode? || call.ReviveNode?)
    ensures Leads(c, call, d) && Inv(d, h) && d.nodes == c.nodes
    ensures d.leader == (if call.FailNode? && c.leader == Some(call.id) then None else c.leader)
    ensures d.down == (if call.FailNode? then c.down + {call.id} else c.down - {call.id})
  {
    d := Step(c, call).0;
    FailKeeps(c, h, d);
  }

  /** A read, the leader fails, a write, the new leader fails and is revived: two of three nodes are
      live, and hold everything, yet the next call finds no leader. With the declared order it would. */
  lemma AvailabilityIsLost(key: Bytes, op: Op) returns (c1: Cluster, c2: Cluster, c3: Cluster, c4: Cluster, c5: Cluster)
    ensures Leads(New(3), Read(key), c1) && Leads(c1, FailNode(0), c2) && Leads(c2, Write(op), c3)
    ensures Leads(c3, FailNode(1), c4) && Leads(c4, ReviveNode(1), c5)
    ensures Lost(c5)
  {
    c1 := FirstRead(key);
    c2 := Toggled(c1, [], FailNode(0));
    var h;
    c3, h := WriteAfterFailure(c2, op);
    c4 := Toggled(c3, h, FailNode(1));
    c5 := Toggled(c4, h, ReviveNode(1));
    LostAfterWrite(c5, h);
  }
}
