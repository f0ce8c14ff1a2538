/** State-machine safety of the protocol, by the argument of sections 5.3 and 5.4 of the Raft paper. */
module RaftSafety {
  import opened Types
  import opened RaftNode
  import opened RaftProtocol

  // ---- logs certified by the leaders' logs ----

  /** Every prefix of `log` that ends in an entry of term T is a prefix of what the leader of T had.
      Log matching follows: two certified logs with the same term at an index agree up to it. */
  ghost predicate Certified(log: Log, leaders: map<nat, Log>) {
    forall k: nat {:trigger CertifiedAt(log, leaders, k)} :: k < |log| ==> CertifiedAt(log, leaders, k)
  }

  ghost predicate CertifiedAt(log: Log, leaders: map<nat, Log>, k: nat)
    requires k < |log|
  {
    log[k].term in leaders && log[..k + 1] <= leaders[log[k].term]
  }

  ghost predicate TermsBelow(log: Log, bound: nat) {
    forall k :: 0 <= k < |log| ==> log[k].term < bound
  }

  /** The leaders' logs only grow. */
  ghost predicate LeadersGrow(a: map<nat, Log>, b: map<nat, Log>) {
    forall t :: t in a ==> t in b && a[t] <= b[t]
  }

  lemma CertifiedGrows(log: Log, a: map<nat, Log>, b: map<nat, Log>)
    requires Certified(log, a) && LeadersGrow(a, b)
    ensures Certified(log, b)
  {
    forall k: nat | k < |log|
      ensures CertifiedAt(log, b, k)
    {
      assert CertifiedAt(log, a, k);
    }
  }

  lemma CertifiedPrefix(log: Log, p: Log, leaders: map<nat, Log>)
    requires Certified(log, leaders) && p <= log
    ensures Certified(p, leaders)
  {
    forall k: nat | k < |p|
      ensures CertifiedAt(p, leaders, k)
    {
      assert CertifiedAt(log, leaders, k);
      assert p[..k + 1] == log[..k + 1] && p[k] == log[k];
    }
  }

  /** Log matching (section 5.3 of the Raft paper). */
  lemma LogMatching(a: Log, b: Log, leaders: map<nat, Log>, k: nat)
    requires Certified(a, leaders) && Certified(b, leaders)
    requires k < |a| && k < |b| && a[k].term == b[k].term
    ensures a[..k + 1] == b[..k + 1]
  {
    assert CertifiedAt(a, leaders, k) && CertifiedAt(b, leaders, k);
    var l := leaders[a[k].term];
    assert a[..k + 1] == l[..k + 1] == b[..k + 1];
  }

  // ---- the invariant ----

  ghost predicate NodeOk(s: Sys, j: nat, n: NodeState) {
    && n.id == j && n.peers == s.nodes.Keys
    && Certified(n.log, s.leaders)
    && TermsBelow(n.log, n.term + 1)
    && n.applied <= n.commitIdx <= |n.log|
    && n.state == Replay(n.log[..n.applied])
    && Backed(s, n.log[..n.commitIdx], n.term)
  }

  ghost predicate RoleOk(s: Sys, j: nat, n: NodeState) {
    match n.role
    case Follower => true
    case Candidate => (n.term, j) in s.camp && s.camp[(n.term, j)] == n.log
    case Leader =>
      && n.term in s.wins && s.wins[n.term].leader == j
      && n.term in s.leaders && s.leaders[n.term] == n.log
      && n.matchIdx.Keys <= s.nodes.Keys
      && forall p :: p in n.matchIdx && n.matchIdx[p] > 0 ==> Ack(n.term, p, n.matchIdx[p]) in s.acks
  }

  /** `p` is a prefix of something a leader of a term up to `t` committed. */
  ghost predicate Backed(s: Sys, p: Log, t: nat) {
    p == [] || exists c {:trigger BackedBy(s, p, t, c)} :: c in s.chosen && BackedBy(s, p, t, c)
  }

  ghost predicate BackedBy(s: Sys, p: Log, t: nat, c: Choice) {
    c.term <= t && c.term in s.leaders && |p| <= c.index && p <= s.leaders[c.term]
  }

  ghost predicate LeaderOk(s: Sys, t: nat) {
    && t in s.wins && t in s.leaders
    && Certified(s.leaders[t], s.leaders)
    && s.wins[t].log <= s.leaders[t]
    && TermsBelow(s.wins[t].log, t)
    && (forall k :: |s.wins[t].log| <= k < |s.leaders[t]| ==> s.leaders[t][k].term == t)
    && s.wins[t].leader in s.nodes
    && t <= s.nodes[s.wins[t].leader].term
    && (t == s.nodes[s.wins[t].leader].term ==> s.nodes[s.wins[t].leader].role != Candidate)
    && (t, s.wins[t].leader) in s.camp && s.camp[(t, s.wins[t].leader)] == s.wins[t].log
    && IsQuorum(s, s.wins[t].quorum)
    && forall q {:trigger Ballot(s, t, q, s.wins[t].leader)} ::
         q in s.wins[t].quorum ==> Ballot(s, t, q, s.wins[t].leader)
  }

  /** `q` voted for `cand` before term `t` had a leader. */
  ghost predicate Ballot(s: Sys, t: nat, q: nat, cand: nat) {
    exists v :: v in s.votes && v.term == t && v.voter == q && v.cand == cand && !v.late
  }

  ghost predicate LeadersOk(s: Sys) {
    && s.wins.Keys == s.leaders.Keys
    && forall t {:trigger LeaderOk(s, t)} :: t in s.wins ==> LeaderOk(s, t)
  }

  ghost predicate CampOk(s: Sys) {
    forall t, c {:trigger CampaignOk(s, t, c)} :: (t, c) in s.camp ==> CampaignOk(s, t, c)
  }

  ghost predicate CampaignOk(s: Sys, t: nat, c: nat) {
    && (t, c) in s.camp
    && c in s.nodes && t <= s.nodes[c].term
    && Certified(s.camp[(t, c)], s.leaders) && TermsBelow(s.camp[(t, c)], t)
  }

  ghost predicate VoteOk(s: Sys, v: Vote) {
    && v.voter in s.nodes
    && v.term <= s.nodes[v.voter].term
    && (v.term == s.nodes[v.voter].term ==> s.nodes[v.voter].votedFor == Some(v.cand))
    && (v.term, v.cand) in s.camp
    && Certified(v.log, s.leaders)
    && UpToDate(|s.camp[(v.term, v.cand)]|, LastTerm(s.camp[(v.term, v.cand)]), v.log)
    && (v.late ==> v.term in s.wins)
  }

  ghost predicate VotesOk(s: Sys) {
    && (forall v {:trigger VoteOk(s, v)} :: v in s.votes ==> VoteOk(s, v))
    && forall v, w :: v in s.votes && w in s.votes && v.term == w.term && v.voter == w.voter ==> v.cand == w.cand
  }

  ghost predicate MsgOk(s: Sys, m: Msg) {
    match m
    case VoteReq(term, cand, lastIndex, lastTerm) =>
      && (term, cand) in s.camp
      && lastIndex == |s.camp[(term, cand)]| && lastTerm == LastTerm(s.camp[(term, cand)])
    case Append(term, leader, prevIndex, prevTerm, entries, commit) =>
      && term in s.leaders
      && prevIndex + |entries| <= |s.leaders[term]|
      && entries == s.leaders[term][prevIndex..prevIndex + |entries|]
      && (prevIndex > 0 ==> s.leaders[term][prevIndex - 1].term == prevTerm)
      && commit <= |s.leaders[term]|
      && Backed(s, s.leaders[term][..commit], term)
  }

  /** `log` still starts with the first `x` entries of the leader of `t`, unless a leader elected
      after `t` and before `hi` lacked them. */
  ghost predicate Kept(s: Sys, t: nat, x: nat, log: Log, hi: nat)
    requires t in s.leaders && x <= |s.leaders[t]|
  {
    s.leaders[t][..x] <= log
    || exists u :: t < u < hi && u in s.wins && !(s.leaders[t][..x] <= s.wins[u].log)
  }

  ghost predicate AckOk(s: Sys, a: Ack) {
    && a.term in s.leaders && a.index <= |s.leaders[a.term]|
    && a.follower in s.nodes && a.term <= s.nodes[a.follower].term
    && (forall x: nat {:trigger KeptByNode(s, a, x)} :: x <= a.index ==> KeptByNode(s, a, x))
    && forall v, x: nat {:trigger KeptByVote(s, a, v, x)} ::
         v in s.votes && v.voter == a.follower && a.term < v.term && !v.late && x <= a.index ==> KeptByVote(s, a, v, x)
  }

  ghost predicate KeptByNode(s: Sys, a: Ack, x: nat)
    requires a.term in s.leaders && x <= |s.leaders[a.term]| && a.follower in s.nodes
  {
    Kept(s, a.term, x, s.nodes[a.follower].log, s.nodes[a.follower].term + 1)
  }

  ghost predicate KeptByVote(s: Sys, a: Ack, v: Vote, x: nat)
    requires a.term in s.leaders && x <= |s.leaders[a.term]|
  {
    Kept(s, a.term, x, v.log, v.term)
  }

  ghost predicate ChoiceOk(s: Sys, c: Choice) {
    && c.term in s.leaders && 0 < c.index <= |s.leaders[c.term]|
    && s.leaders[c.term][c.index - 1].term == c.term
    && IsQuorum(s, c.quorum)
    && forall q {:trigger Acked(s, c.term, q, c.index)} :: q in c.quorum ==> Acked(s, c.term, q, c.index)
  }

  ghost predicate Acked(s: Sys, t: nat, q: nat, index: nat) {
    exists a :: a in s.acks && a.term == t && a.follower == q && a.index >= index
  }

  ghost predicate Inv(s: Sys) {
    && (forall j {:trigger NodeOk(s, j, s.nodes[j])} {:trigger RoleOk(s, j, s.nodes[j])} ::
          j in s.nodes ==> NodeOk(s, j, s.nodes[j]) && RoleOk(s, j, s.nodes[j]))
    && LeadersOk(s) && CampOk(s) && VotesOk(s)
    && (forall m {:trigger MsgOk(s, m)} :: m in s.net ==> MsgOk(s, m))
    && (forall a {:trigger AckOk(s, a)} :: a in s.acks ==> AckOk(s, a))
    && (forall c {:trigger ChoiceOk(s, c)} :: c in s.chosen ==> ChoiceOk(s, c))
  }

  // ---- consequences ----

  lemma QuorumsMeet(s: Sys, a: set<nat>, b: set<nat>) returns (q: nat)
    requires IsQuorum(s, a) && IsQuorum(s, b)
    ensures q in a && q in b
  {
    if a * b == {} {
      SubsetCard(a + b, s.nodes.Keys);
    }
    q :| q in a * b;
  }

  lemma {:induction false} SubsetCard(a: set<nat>, b: set<nat>)
    requires a <= b
    ensures |a| <= |b|
  {
    assert b == a + (b - a);
  }

  lemma LeaderTermsBounded(s: Sys, t: nat, k: nat)
    requires LeadersOk(s) && t in s.leaders && k < |s.leaders[t]|
    ensures s.leaders[t][k].term <= t
  {
    assert LeaderOk(s, t);
    if k < |s.wins[t].log| {
      assert s.wins[t].log[k] == s.leaders[t][k];
    }
  }

  /** Terms never decrease along a certified log. */
  lemma TermsNondecreasing(s: Sys, log: Log, i: nat, k: nat)
    requires LeadersOk(s) && Certified(log, s.leaders) && i <= k < |log|
    ensures log[i].term <= log[k].term
  {
    assert CertifiedAt(log, s.leaders, k);
    var l := s.leaders[log[k].term];
    assert log[..k + 1][i] == l[..k + 1][i];
    LeaderTermsBounded(s, log[k].term, i);
  }

  /** Leader completeness (section 5.4.3): what the leader of `c.term` committed is in the log of
      every leader elected later. */
  lemma {:induction false} LeaderCompleteness(s: Sys, c: Choice, t: nat)
    requires Inv(s) && c in s.chosen && t in s.wins && c.term < t
    ensures ChoiceOk(s, c)
    ensures s.leaders[c.term][..c.index] <= s.wins[t].log
    decreases t
  {
    assert ChoiceOk(s, c) && LeaderOk(s, t);
    var q := QuorumsMeet(s, c.quorum, s.wins[t].quorum);
    assert Acked(s, c.term, q, c.index) && Ballot(s, t, q, s.wins[t].leader);
    var a :| a in s.acks && a.term == c.term && a.follower == q && a.index >= c.index;
    var v :| v in s.votes && v.term == t && v.voter == q && v.cand == s.wins[t].leader && !v.late;
    assert AckOk(s, a);
    assert KeptByVote(s, a, v, c.index);
    var p := s.leaders[c.term][..c.index];
    if !(p <= v.log) {
      var u :| c.term < u < t && u in s.wins && !(p <= s.wins[u].log);
      LeaderCompleteness(s, c, u);
    }
    forall u | c.term < u < t && u in s.wins
      ensures s.leaders[c.term][..c.index] <= s.wins[u].log
    {
      LeaderCompleteness(s, c, u);
    }
    UpToDateContains(s, c, v, t);
  }

  /** A candidate at least as up to date as a log holding the committed prefix holds it too. */
  lemma UpToDateContains(s: Sys, c: Choice, v: Vote, t: nat)
    requires Inv(s) && c in s.chosen && t in s.wins && c.term < t && ChoiceOk(s, c)
    requires v in s.votes && v.term == t && v.cand == s.wins[t].leader
    requires s.leaders[c.term][..c.index] <= v.log
    requires forall u :: c.term < u < t && u in s.wins ==> s.leaders[c.term][..c.index] <= s.wins[u].log
    ensures s.leaders[c.term][..c.index] <= s.wins[t].log
  {
    var p := s.leaders[c.term][..c.index];
    assert VoteOk(s, v) && LeaderOk(s, t);
    var log := s.wins[t].log;
    assert v.log[c.index - 1] == p[c.index - 1];
    TermsNondecreasing(s, v.log, c.index - 1, |v.log| - 1);
    assert LastTerm(v.log) >= c.term;
    assert log != [];
    var last := LastTerm(log);
    CertifiedPrefix(s.leaders[t], log, s.leaders);
    assert CertifiedAt(log, s.leaders, |log| - 1);
    assert log[..|log|] == log;
    assert log <= s.leaders[last];
    assert last < t;
    if last == c.term {
      assert |log| >= |v.log| >= c.index;
      assert p == log[..c.index];
    } else {
      assert LeaderOk(s, last);
      assert p <= s.leaders[last];
      LeaderTermsBounded(s, c.term, Min(|log|, c.index) - 1);
      assert |log| > c.index;
      assert log[..c.index] == s.leaders[last][..c.index] == p;
    }
  }

  /** Two committed prefixes, whichever nodes and terms they come from, agree where both reach. */
  lemma BackedAgree(s: Sys, a: Log, ta: nat, b: Log, tb: nat)
    requires Inv(s) && Backed(s, a, ta) && Backed(s, b, tb)
    ensures a <= b || b <= a
  {
    if a != [] && b != [] {
      var c :| c in s.chosen && BackedBy(s, a, ta, c);
      var d :| d in s.chosen && BackedBy(s, b, tb, d);
      if c.term == d.term {
      } else if c.term < d.term {
        assert d.term in s.wins;
        LeaderCompleteness(s, c, d.term);
        assert LeaderOk(s, d.term);
        assert a <= s.leaders[c.term][..c.index];
      } else {
        LeaderCompleteness(s, d, c.term);
        assert LeaderOk(s, c.term);
        assert b <= s.leaders[d.term][..d.index];
      }
    }
  }

  /** A committed prefix is in the log of every leader of the same or a later term. */
  lemma BackedInLeader(s: Sys, p: Log, t: nat, u: nat)
    requires Inv(s) && Backed(s, p, t) && t <= u && u in s.leaders
    ensures p <= s.leaders[u]
  {
    if p != [] {
      var c :| c in s.chosen && BackedBy(s, p, t, c);
      assert LeaderOk(s, u);
      if c.term < u {
        LeaderCompleteness(s, c, u);
        assert p <= s.leaders[c.term][..c.index];
      }
    }
  }
}
