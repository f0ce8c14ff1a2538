/** Every step of the protocol keeps the invariant, so the safety theorems hold over every run. */
module RaftInvariant {
  import opened Types
  import opened RaftNode
  import opened RaftProtocol
  import opened RaftSafety

  // ---- what every step has in common ----

  /** History only grows. */
  ghost predicate Grows(s: Sys, s': Sys) {
    && s.nodes.Keys == s'.nodes.Keys
    && LeadersGrow(s.leaders, s'.leaders)
    && (forall t :: t in s.wins ==> t in s'.wins && s'.wins[t] == s.wins[t])
    && (forall c :: c in s.camp ==> c in s'.camp && s'.camp[c] == s.camp[c])
    && s.votes <= s'.votes && s.acks <= s'.acks && s.chosen <= s'.chosen && s.net <= s'.net
  }

  /** A node never goes back: within a term its vote is final and it cannot become a candidate again. */
  ghost predicate NodeAdvances(n: NodeState, n': NodeState) {
    && n'.id == n.id && n'.peers == n.peers
    && n.term <= n'.term
    && (n.term == n'.term && n.votedFor.Some? ==> n'.votedFor == n.votedFor)
    && (n.term == n'.term && n'.role == Candidate ==> n.role == Candidate)
  }

  /** `s'` differs from `s` at node `j` and in what was added to history. */
  ghost predicate Frame(s: Sys, s': Sys, j: nat) {
    && Grows(s, s') && j in s.nodes
    && s'.nodes == s.nodes[j := s'.nodes[j]]
    && NodeAdvances(s.nodes[j], s'.nodes[j])
    && (forall t :: t in s.leaders ==> s'.leaders[t] == s.leaders[t] || (t in s.wins && s.wins[t].leader == j))
  }

  lemma BackedGrows(s: Sys, s': Sys, p: Log, t: nat, q: Log, u: nat)
    requires Grows(s, s') && Backed(s, p, t) && q <= p && t <= u
    ensures Backed(s', q, u)
  {
    if q != [] {
      var c :| c in s.chosen && BackedBy(s, p, t, c);
      assert BackedBy(s', q, u, c);
    }
  }

  lemma KeptGrows(s: Sys, s': Sys, t: nat, x: nat, log: Log, hi: nat, log': Log, hi': nat)
    requires Grows(s, s') && t in s.leaders && x <= |s.leaders[t]| && Kept(s, t, x, log, hi)
    requires log <= log' && hi <= hi'
    ensures Kept(s', t, x, log', hi')
  {
    assert s'.leaders[t][..x] == s.leaders[t][..x];
    if !(s.leaders[t][..x] <= log) {
      var u :| t < u < hi && u in s.wins && !(s.leaders[t][..x] <= s.wins[u].log);
      assert u in s'.wins;
    }
  }

  lemma OldVotes(s: Sys, s': Sys, j: nat)
    requires Inv(s) && Frame(s, s', j)
    ensures forall v {:trigger VoteOk(s', v)} :: v in s.votes ==> VoteOk(s', v)
  {
    forall v | v in s.votes
      ensures VoteOk(s', v)
    {
      assert VoteOk(s, v);
      CertifiedGrows(v.log, s.leaders, s'.leaders);
    }
  }

  lemma OldCampaigns(s: Sys, s': Sys, j: nat)
    requires Inv(s) && Frame(s, s', j)
    ensures forall t, c {:trigger CampaignOk(s', t, c)} :: (t, c) in s.camp ==> CampaignOk(s', t, c)
  {
    forall t, c | (t, c) in s.camp
      ensures CampaignOk(s', t, c)
    {
      assert CampaignOk(s, t, c);
      CertifiedGrows(s.camp[(t, c)], s.leaders, s'.leaders);
    }
  }

  lemma OldNode(s: Sys, s': Sys, j: nat, k: nat)
    requires Inv(s) && Frame(s, s', j) && k in s.nodes && k != j
    ensures NodeOk(s', k, s'.nodes[k]) && RoleOk(s', k, s'.nodes[k])
  {
    var n := s.nodes[k];
    assert NodeOk(s, k, s.nodes[k]) && RoleOk(s, k, s.nodes[k]);
    CertifiedGrows(n.log, s.leaders, s'.leaders);
    BackedGrows(s, s', n.log[..n.commitIdx], n.term, n.log[..n.commitIdx], n.term);
  }

  lemma OldMsgs(s: Sys, s': Sys, j: nat)
    requires Inv(s) && Frame(s, s', j)
    ensures forall m {:trigger MsgOk(s', m)} :: m in s.net ==> MsgOk(s', m)
  {
    forall m | m in s.net
      ensures MsgOk(s', m)
    {
      assert MsgOk(s, m);
      if m.Append? {
        var l, l' := s.leaders[m.term], s'.leaders[m.term];
        assert l'[..m.commit] == l[..m.commit];
        BackedGrows(s, s', l[..m.commit], m.term, l[..m.commit], m.term);
      }
    }
  }

  lemma OldChoices(s: Sys, s': Sys, j: nat)
    requires Inv(s) && Frame(s, s', j)
    ensures forall c {:trigger ChoiceOk(s', c)} :: c in s.chosen ==> ChoiceOk(s', c)
  {
    forall c | c in s.chosen
      ensures ChoiceOk(s', c)
    {
      assert ChoiceOk(s, c);
      forall q | q in c.quorum
        ensures Acked(s', c.term, q, c.index)
      {
        assert Acked(s, c.term, q, c.index);
      }
    }
  }

  lemma OldLeader(s: Sys, s': Sys, j: nat, t: nat)
    requires Inv(s) && Frame(s, s', j) && t in s.wins && t in s.leaders && s'.leaders[t] == s.leaders[t]
    ensures LeaderOk(s', t)
  {
    assert LeaderOk(s, t);
    CertifiedGrows(s.leaders[t], s.leaders, s'.leaders);
    forall q | q in s.wins[t].quorum
      ensures Ballot(s', t, q, s'.wins[t].leader)
    {
      assert Ballot(s, t, q, s.wins[t].leader);
    }
  }

  /** Node `j` keeps what it acknowledged. */
  ghost predicate KeepsAcked(s: Sys, s': Sys, j: nat)
    requires Inv(s) && Frame(s, s', j)
  {
    forall a, x: nat {:trigger KeptStill(s', a, x)} ::
      a in s.acks && a.follower == j && x <= a.index ==> KeptStill(s', a, x)
  }

  ghost predicate KeptStill(s: Sys, a: Ack, x: nat) {
    a.term in s.leaders && x <= |s.leaders[a.term]| && a.follower in s.nodes && KeptByNode(s, a, x)
  }

  lemma ExtendingKeeps(s: Sys, s': Sys, j: nat)
    requires Inv(s) && Frame(s, s', j) && s.nodes[j].log <= s'.nodes[j].log
    ensures KeepsAcked(s, s', j)
  {
    forall a, x: nat | a in s.acks && a.follower == j && x <= a.index
      ensures KeptStill(s', a, x)
    {
      assert AckOk(s, a) && KeptByNode(s, a, x);
      var n, n' := s.nodes[j], s'.nodes[j];
      KeptGrows(s, s', a.term, x, n.log, n.term + 1, n'.log, n'.term + 1);
    }
  }

  /** Old acknowledgements stay good against old votes and against votes just granted by `j`. */
  lemma OldAcks(s: Sys, s': Sys, j: nat)
    requires Inv(s) && Frame(s, s', j) && KeepsAcked(s, s', j)
    requires forall v :: v in s'.votes && v !in s.votes ==>
               v.voter == j && v.log == s.nodes[j].log && s.nodes[j].term <= v.term && (v.term in s.wins ==> v.late)
    ensures forall a {:trigger AckOk(s', a)} :: a in s.acks ==> AckOk(s', a)
  {
    forall a | a in s.acks
      ensures AckOk(s', a)
    {
      assert AckOk(s, a);
      forall x: nat | x <= a.index
        ensures KeptByNode(s', a, x)
      {
        if a.follower == j {
          assert KeptStill(s', a, x);
        } else {
          assert KeptByNode(s, a, x);
          var n := s.nodes[a.follower];
          KeptGrows(s, s', a.term, x, n.log, n.term + 1, n.log, n.term + 1);
        }
      }
      forall v, x: nat | v in s'.votes && v.voter == a.follower && a.term < v.term && !v.late && x <= a.index
        ensures KeptByVote(s', a, v, x)
      {
        if v in s.votes {
          assert KeptByVote(s, a, v, x);
          KeptGrows(s, s', a.term, x, v.log, v.term, v.log, v.term);
        } else {
          assert KeptByNode(s, a, x);
          assert Kept(s, a.term, x, v.log, v.term);
          KeptGrows(s, s', a.term, x, v.log, v.term, v.log, v.term);
        }
      }
    }
  }

  /** The invariant, given what a step must still show about the node it moved and what it added. */
  lemma Assemble(s: Sys, s': Sys, j: nat)
    requires Inv(s) && Frame(s, s', j)
    requires NodeOk(s', j, s'.nodes[j]) && RoleOk(s', j, s'.nodes[j])
    requires s'.wins.Keys == s'.leaders.Keys
    requires forall t :: t in s'.wins && (t !in s.wins || s'.leaders[t] != s.leaders[t]) ==> LeaderOk(s', t)
    requires forall t, c :: (t, c) in s'.camp && (t, c) !in s.camp ==> CampaignOk(s', t, c)
    requires forall v :: v in s'.votes && v !in s.votes ==> VoteOk(s', v)
    requires forall v, w ::
      v in s'.votes && w in s'.votes && v.term == w.term && v.voter == w.voter ==> v.cand == w.cand
    requires forall m :: m in s'.net && m !in s.net ==> MsgOk(s', m)
    requires forall a {:trigger AckOk(s', a)} :: a in s'.acks ==> AckOk(s', a)
    requires forall c :: c in s'.chosen && c !in s.chosen ==> ChoiceOk(s', c)
    ensures Inv(s')
  {
    OldVotes(s, s', j);
    OldCampaigns(s, s', j);
    OldMsgs(s, s', j);
    OldChoices(s, s', j);
    forall t | t in s'.wins
      ensures LeaderOk(s', t)
    {
      if t in s.wins && s'.leaders[t] == s.leaders[t] {
        OldLeader(s, s', j, t);
      }
    }
    forall k | k in s'.nodes
      ensures NodeOk(s', k, s'.nodes[k]) && RoleOk(s', k, s'.nodes[k])
    {
      if k != j {
        OldNode(s, s', j, k);
      }
    }
  }

  // ---- one lemma per step ----

  lemma CampaignKeeps(s: Sys, i: nat, t: nat)
    requires Inv(s) && Enabled(s, CampaignStep(i, t))
    ensures Inv(Perform(s, CampaignStep(i, t)))
  {
    var s' := Perform(s, CampaignStep(i, t));
    var n, n' := s.nodes[i], s'.nodes[i];
    assert NodeOk(s, i, s.nodes[i]);
    assert (t, i) in s.camp ==> CampaignOk(s, t, i);
    assert Frame(s, s', i);
    BackedGrows(s, s', n.log[..n.commitIdx], n.term, n.log[..n.commitIdx], t);
    ExtendingKeeps(s, s', i);
    OldAcks(s, s', i);
    var v := Vote(t, i, i, n.log, t in s.wins);
    forall w | w in s.votes && w.voter == i
      ensures w.term != t
    {
      assert VoteOk(s, w);
    }
    assert VoteOk(s', v);
    Assemble(s, s', i);
  }

  lemma VoteKeeps(s: Sys, j: nat, m: Msg)
    requires Inv(s) && Enabled(s, VoteStep(j, m))
    ensures Inv(Perform(s, VoteStep(j, m)))
  {
    var s' := Perform(s, VoteStep(j, m));
    var n, n' := s.nodes[j], s'.nodes[j];
    assert NodeOk(s, j, s.nodes[j]) && RoleOk(s, j, s.nodes[j]);
    assert Frame(s, s', j);
    BackedGrows(s, s', n.log[..n.commitIdx], n.term, n.log[..n.commitIdx], n'.term);
    ExtendingKeeps(s, s', j);
    OldAcks(s, s', j);
    assert MsgOk(s, m);
    forall w | w in s.votes && w.voter == j && w.term == m.term && Grants(n, m.cand, m.term, m.lastIndex, m.lastTerm)
      ensures w.cand == m.cand
    {
      assert VoteOk(s, w);
    }
    Assemble(s, s', j);
  }

  /** Two candidates cannot both have a quorum of votes in one term. */
  lemma QuorumNamesTheWinner(s: Sys, i: nat, t: nat, q: set<nat>)
    requires Inv(s) && IsQuorum(s, q) && forall v :: v in q ==> Voted(s, t, v, i)
    ensures t in s.wins ==> LeaderOk(s, t) && s.wins[t].leader == i
  {
    if t in s.wins {
      assert LeaderOk(s, t);
      var p := QuorumsMeet(s, q, s.wins[t].quorum);
      assert Voted(s, t, p, i) && Ballot(s, t, p, s.wins[t].leader);
    }
  }

  /** Election safety: a candidate with a quorum of votes is the first winner of its term. */
  lemma WinnerIsFirst(s: Sys, i: nat, q: set<nat>)
    requires Inv(s) && Enabled(s, WinStep(i, q))
    ensures s.nodes[i].term !in s.wins
  {
    QuorumNamesTheWinner(s, i, s.nodes[i].term, q);
  }

  lemma WinKeeps(s: Sys, i: nat, q: set<nat>)
    requires Inv(s) && Enabled(s, WinStep(i, q))
    ensures Inv(Perform(s, WinStep(i, q)))
  {
    hide Replay, UpToDate, MsgOk, AckOk, ChoiceOk;
    WinnerIsFirst(s, i, q);
    var s' := Perform(s, WinStep(i, q));
    var n, n' := s.nodes[i], s'.nodes[i];
    assert NodeOk(s, i, s.nodes[i]) && RoleOk(s, i, s.nodes[i]);
    assert CampaignOk(s, n.term, i);
    assert Frame(s, s', i);
    CertifiedGrows(n.log, s.leaders, s'.leaders);
    BackedGrows(s, s', n.log[..n.commitIdx], n.term, n.log[..n.commitIdx], n'.term);
    ExtendingKeeps(s, s', i);
    OldAcks(s, s', i);
    forall v | v in q
      ensures Ballot(s', n.term, v, i)
    {
      assert Voted(s, n.term, v, i);
      var w :| w in s.votes && w.term == n.term && w.voter == v && w.cand == i;
      assert VoteOk(s, w);
      assert w in s'.votes;
    }
    assert LeaderOk(s', n.term);
    Assemble(s, s', i);
  }

  lemma ProposeKeeps(s: Sys, i: nat, cmd: Op)
    requires Inv(s) && Enabled(s, ProposeStep(i, cmd))
    ensures Inv(Perform(s, ProposeStep(i, cmd)))
  {
    var s' := Perform(s, ProposeStep(i, cmd));
    var n, n' := s.nodes[i], s'.nodes[i];
    assert NodeOk(s, i, s.nodes[i]) && RoleOk(s, i, s.nodes[i]) && LeaderOk(s, n.term);
    assert Frame(s, s', i);
    CertifiedGrows(n.log, s.leaders, s'.leaders);
    CertifiedAppend(n.log, LogEntry(n.term, cmd), s'.leaders);
    assert n'.log[..n.commitIdx] == n.log[..n.commitIdx] && n'.log[..n.applied] == n.log[..n.applied];
    BackedGrows(s, s', n.log[..n.commitIdx], n.term, n.log[..n.commitIdx], n.term);
    ExtendingKeeps(s, s', i);
    OldAcks(s, s', i);
    NewAck(s, s', i, Ack(n.term, i, |n'.log|));
    forall q | q in s.wins[n.term].quorum
      ensures Ballot(s', n.term, q, s'.wins[n.term].leader)
    {
      assert Ballot(s, n.term, q, s.wins[n.term].leader);
    }
    assert LeaderOk(s', n.term);
    Assemble(s, s', i);
  }

  lemma CertifiedAppend(log: Log, e: LogEntry, leaders: map<nat, Log>)
    requires Certified(log, leaders) && e.term in leaders && leaders[e.term] == log + [e]
    ensures Certified(log + [e], leaders)
  {
    forall k: nat | k < |log + [e]|
      ensures CertifiedAt(log + [e], leaders, k)
    {
      if k < |log| {
        assert CertifiedAt(log, leaders, k);
        assert (log + [e])[..k + 1] == log[..k + 1];
      }
    }
  }

  /** An acknowledgement of the term `j` is in, for a prefix of the leader's log that `j` holds. */
  lemma NewAck(s: Sys, s': Sys, j: nat, a: Ack)
    requires Inv(s) && Frame(s, s', j) && s'.votes == s.votes
    requires a.follower == j && a.term == s'.nodes[j].term && a.term in s'.leaders
    requires a.index <= |s'.leaders[a.term]| && s'.leaders[a.term][..a.index] <= s'.nodes[j].log
    ensures AckOk(s', a)
  {
    forall x: nat | x <= a.index
      ensures KeptByNode(s', a, x)
    {
      assert s'.leaders[a.term][..x] <= s'.leaders[a.term][..a.index];
    }
    forall v | v in s'.votes && v.voter == j
      ensures v.term <= a.term
    {
      assert VoteOk(s, v);
    }
  }

  lemma SendKeeps(s: Sys, i: nat, prev: nat, count: nat)
    requires Inv(s) && Enabled(s, SendStep(i, prev, count))
    ensures Inv(Perform(s, SendStep(i, prev, count)))
  {
    var s' := Perform(s, SendStep(i, prev, count));
    var n := s.nodes[i];
    assert NodeOk(s, i, s.nodes[i]) && RoleOk(s, i, s.nodes[i]);
    assert Frame(s, s', i);
    BackedGrows(s, s', n.log[..n.commitIdx], n.term, n.log[..n.commitIdx], n.term);
    ExtendingKeeps(s, s', i);
    OldAcks(s, s', i);
    Assemble(s, s', i);
  }

  /** Receiving either extends the log, or replaces a tail that the sender's log contradicts; either
      way an accepted message leaves the follower equal to the sender through its last entry. */
  lemma ReceivedLog(s: Sys, j: nat, m: Msg) returns (c: nat)
    requires Inv(s) && j in s.nodes && m in s.net && m.Append?
    ensures m.term in s.leaders
    ensures var log := s.nodes[j].log;
            var (log', reply) := AppendLog(log, m.prevIndex, m.prevTerm, m.entries);
            && Certified(log', s.leaders)
            && (log' <= log || log' <= s.leaders[m.term])
            && c <= |log| && log[..c] <= log'
            && (c < |log| ==> c < |s.leaders[m.term]| && log[c] != s.leaders[m.term][c])
            && var end := m.prevIndex + |m.entries|;
               (reply.None? ==> end <= |s.leaders[m.term]| && s.leaders[m.term][..end] <= log')
  {
    assert NodeOk(s, j, s.nodes[j]) && MsgOk(s, m) && LeaderOk(s, m.term);
    var log, prev := s.nodes[j].log, m.prevIndex;
    if PrevOk(log, prev, m.prevTerm) {
      c := AcceptedLog(log, s.leaders[m.term], s.leaders, prev, m.prevTerm, m.entries);
    } else if TermOf(log, prev).Some? {
      c := prev - 1;
      CertifiedPrefix(log, log[..c], s.leaders);
    } else {
      c := |log|;
      assert log[..c] == log;
    }
  }

  lemma PrefixThenPart<T>(l: seq<T>, prev: nat, end: nat, c: nat)
    requires prev <= c <= end <= |l|
    ensures l[..c] + l[prev..end][c - prev..] == l[..end]
  {
  }

  lemma AcceptedLog(log: Log, l: Log, leaders: map<nat, Log>, prev: nat, prevTerm: nat, entries: Log) returns (c: nat)
    requires Certified(log, leaders) && Certified(l, leaders)
    requires prev + |entries| <= |l| && entries == l[prev..prev + |entries|]
    requires (prev > 0 ==> l[prev - 1].term == prevTerm) && PrevOk(log, prev, prevTerm)
    ensures var log' := Merge(log, prev + 1, entries);
            && (log' == log || log' == l[..prev + |entries|])
            && Certified(log', leaders)
            && c <= |log| && log[..c] <= log'
            && (c < |log| ==> c < |l| && log[c] != l[c])
            && l[..prev + |entries|] <= log'
  {
    hide Merge, Certified, FirstConflict;
    var end := prev + |entries|;
    if prev > 0 {
      LogMatching(log, l, leaders, prev - 1);
    }
    MergeReplacesFromFirstConflict(log, prev, entries);
    c := FirstConflict(log, prev, entries);
    if c > prev {
      assert entries[c - 1 - prev] == l[c - 1];
      LogMatching(log, l, leaders, c - 1);
    }
    assert log[..c] == l[..c];
    if c == end {
      assert log[..c] <= log;
      c := |log|;
      assert log[..c] == log;
    } else {
      PrefixThenPart(l, prev, end, c);
      CertifiedPrefix(l, l[..end], leaders);
      assert entries[c - prev] == l[c];
    }
  }

  lemma ReceiveKeeps(s: Sys, j: nat, m: Msg)
    requires Inv(s) && Enabled(s, ReceiveStep(j, m))
    ensures Inv(Perform(s, ReceiveStep(j, m)))
  {
    var s' := Perform(s, ReceiveStep(j, m));
    var n, n' := s.nodes[j], s'.nodes[j];
    assert NodeOk(s, j, s.nodes[j]);
    assert Frame(s, s', j);
    if m.term < n.term {
      assert s' == s;
    } else {
      var c := ReceivedLog(s, j, m);
      BackedInLeader(s, n.log[..n.commitIdx], n.term, m.term);
      ReceivedNodeOk(s, s', j, m, c);
      ReceivedKeepsAcked(s, s', j, m, c);
      OldAcks(s, s', j);
      if s'.acks != s.acks {
        NewAck(s, s', j, Ack(m.term, j, m.prevIndex + |m.entries|));
      }
      Assemble(s, s', j);
    }
  }

  lemma ReceivedNodeOk(s: Sys, s': Sys, j: nat, m: Msg, c: nat)
    requires Inv(s) && Enabled(s, ReceiveStep(j, m)) && s' == Perform(s, ReceiveStep(j, m))
    requires s.nodes[j].term <= m.term && m.term in s.leaders
    requires Frame(s, s', j)
    requires var n, n' := s.nodes[j], s'.nodes[j];
             && Certified(n'.log, s.leaders)
             && (n'.log <= n.log || n'.log <= s.leaders[m.term])
             && c <= |n.log| && n.log[..c] <= n'.log
             && (c < |n.log| ==> c < |s.leaders[m.term]| && n.log[c] != s.leaders[m.term][c])
             && n.commitIdx <= |n.log| && n.log[..n.commitIdx] <= s.leaders[m.term]
             && var end := m.prevIndex + |m.entries|;
                (s'.acks != s.acks || n'.commitIdx != n.commitIdx ==>
                   end <= |s.leaders[m.term]| && s.leaders[m.term][..end] <= n'.log)
    ensures NodeOk(s', j, s'.nodes[j])
  {
    var n, n', l := s.nodes[j], s'.nodes[j], s.leaders[m.term];
    assert NodeOk(s, j, s.nodes[j]) && MsgOk(s, m);
    assert n.commitIdx <= c;
    assert n'.log[..n.commitIdx] == n.log[..n.commitIdx] && n'.log[..n.applied] == n.log[..n.applied];
    forall k | 0 <= k < |n'.log|
      ensures n'.log[k].term < m.term + 1
    {
      if n'.log <= l {
        LeaderTermsBounded(s, m.term, k);
      }
    }
    if n'.commitIdx == n.commitIdx {
      BackedGrows(s, s', n.log[..n.commitIdx], n.term, n.log[..n.commitIdx], m.term);
    } else {
      var safe := n'.commitIdx;
      assert n'.log[..safe] == l[..safe];
      assert l[..safe] <= l[..m.commit];
      BackedGrows(s, s', l[..m.commit], m.term, l[..safe], m.term);
    }
  }

  lemma ReceivedKeepsAcked(s: Sys, s': Sys, j: nat, m: Msg, c: nat)
    requires Inv(s) && Enabled(s, ReceiveStep(j, m)) && s' == Perform(s, ReceiveStep(j, m))
    requires s.nodes[j].term <= m.term && m.term in s.leaders
    requires Frame(s, s', j)
    requires var n, n' := s.nodes[j], s'.nodes[j];
             && c <= |n.log| && n.log[..c] <= n'.log
             && (c < |n.log| ==> c < |s.leaders[m.term]| && n.log[c] != s.leaders[m.term][c])
    ensures KeepsAcked(s, s', j)
  {
    var n, n' := s.nodes[j], s'.nodes[j];
    assert LeaderOk(s, m.term);
    forall a, x: nat | a in s.acks && a.follower == j && x <= a.index
      ensures KeptStill(s', a, x)
    {
      assert AckOk(s, a) && KeptByNode(s, a, x);
      var p := s.leaders[a.term][..x];
      if p <= n.log && x > c {
        assert p[c] == n.log[c];
        assert !(p <= s.wins[m.term].log);
        assert a.term < m.term < n'.term + 1;
        assert Kept(s', a.term, x, n'.log, n'.term + 1);
      } else if p <= n.log {
        assert p <= n.log[..c];
      } else {
        KeptGrows(s, s', a.term, x, n.log, n.term + 1, n.log, n'.term + 1);
      }
    }
  }

  lemma CountAckKeeps(s: Sys, i: nat, a: Ack)
    requires Inv(s) && Enabled(s, CountAckStep(i, a))
    ensures Inv(Perform(s, CountAckStep(i, a)))
  {
    var s' := Perform(s, CountAckStep(i, a));
    var n := s.nodes[i];
    assert NodeOk(s, i, s.nodes[i]) && RoleOk(s, i, s.nodes[i]) && AckOk(s, a);
    assert Frame(s, s', i);
    BackedGrows(s, s', n.log[..n.commitIdx], n.term, n.log[..n.commitIdx], n.term);
    ExtendingKeeps(s, s', i);
    OldAcks(s, s', i);
    Assemble(s, s', i);
  }

  lemma CommitKeeps(s: Sys, i: nat)
    requires Inv(s) && Enabled(s, CommitStep(i))
    ensures Inv(Perform(s, CommitStep(i)))
  {
    hide Replay, UpToDate, HighestCommittable, MsgOk, AckOk;
    var s' := Perform(s, CommitStep(i));
    var n, n' := s.nodes[i], s'.nodes[i];
    assert NodeOk(s, i, s.nodes[i]) && RoleOk(s, i, s.nodes[i]);
    HighestCommittableIsMax(n, |n.log|);
    CommittableIsMajority(n, n'.commitIdx);
    assert Frame(s, s', i);
    ExtendingKeeps(s, s', i);
    OldAcks(s, s', i);
    if n'.commitIdx == n.commitIdx {
      BackedGrows(s, s', n.log[..n.commitIdx], n.term, n.log[..n.commitIdx], n.term);
    } else {
      var c := Choice(n.term, n'.commitIdx, Replicas(n.matchIdx, n'.commitIdx));
      forall q | q in c.quorum
        ensures Acked(s', c.term, q, c.index)
      {
        assert Ack(n.term, q, n.matchIdx[q]) in s'.acks;
      }
      assert ChoiceOk(s', c);
      assert BackedBy(s', n'.log[..n'.commitIdx], n'.term, c);
    }
    Assemble(s, s', i);
  }

  lemma ApplyKeeps(s: Sys, i: nat)
    requires Inv(s) && Enabled(s, ApplyStep(i))
    ensures Inv(Perform(s, ApplyStep(i)))
  {
    var s' := Perform(s, ApplyStep(i));
    var n := s.nodes[i];
    assert NodeOk(s, i, s.nodes[i]) && RoleOk(s, i, s.nodes[i]);
    ApplyCommittedFoldsLog(n);
    assert Frame(s, s', i);
    BackedGrows(s, s', n.log[..n.commitIdx], n.term, n.log[..n.commitIdx], n.term);
    ExtendingKeeps(s, s', i);
    OldAcks(s, s', i);
    Assemble(s, s', i);
  }

  lemma InitHolds(n: nat)
    ensures Inv(Init(n))
  {
    var s := Init(n);
    forall j | j in s.nodes
      ensures NodeOk(s, j, s.nodes[j]) && RoleOk(s, j, s.nodes[j])
    {
    }
  }

  lemma StepKeeps(s: Sys, step: Step)
    requires Inv(s) && Enabled(s, step)
    ensures Inv(Perform(s, step))
  {
    match step
    case CampaignStep(i, t) => CampaignKeeps(s, i, t);
    case VoteStep(j, m) => VoteKeeps(s, j, m);
    case WinStep(i, q) => WinKeeps(s, i, q);
    case ProposeStep(i, cmd) => ProposeKeeps(s, i, cmd);
    case SendStep(i, prev, count) => SendKeeps(s, i, prev, count);
    case ReceiveStep(j, m) => ReceiveKeeps(s, j, m);
    case CountAckStep(i, a) => CountAckKeeps(s, i, a);
    case CommitStep(i) => CommitKeeps(s, i);
    case ApplyStep(i) => ApplyKeeps(s, i);
  }
}

