/** Every interleaving of the node's methods, over a network that may delay, duplicate, reorder or
    lose messages, and with leaders that may stop after reaching any subset of their peers.

    Sent messages stay in `net` for ever, so any of them may be delivered at any later time, any
    number of times, or never. Granted votes and accepted appends stay in `votes` and `acks` the same
    way. The remaining fields record history: nothing a node does depends on them. */
module RaftProtocol {
  import opened Types
  import opened RaftNode

  datatype Msg =
    | VoteReq(term: nat, cand: nat, lastIndex: nat, lastTerm: nat)
    | Append(term: nat, leader: nat, prevIndex: nat, prevTerm: nat, entries: Log, commit: nat)

  /** A granted vote, with the voter's log when it was granted; `late` if the term already had a leader. */
  datatype Vote = Vote(term: nat, voter: nat, cand: nat, log: Log, late: bool)

  /** `follower` accepted an append of the leader of `term` that vouched for its log through `index`. */
  datatype Ack = Ack(term: nat, follower: nat, index: nat)

  /** The leader of `term` won with these voters, holding `log`. */
  datatype Win = Win(leader: nat, log: Log, quorum: set<nat>)

  /** The leader of `term` committed `index`, counting these replicas. */
  datatype Choice = Choice(term: nat, index: nat, quorum: set<nat>)

  datatype Sys = Sys(
    nodes: map<nat, NodeState>,
    net: set<Msg>,
    votes: set<Vote>,
    acks: set<Ack>,
    camp: map<(nat, nat), Log>,   // the log a candidate started its campaign of a term with
    wins: map<nat, Win>,          // the election of each term that had a winner
    leaders: map<nat, Log>,       // the longest log the leader of each term has had in that term
    chosen: set<Choice>)

  datatype Step =
    | CampaignStep(i: nat, t: nat)
    | VoteStep(j: nat, m: Msg)
    | WinStep(i: nat, q: set<nat>)
    | ProposeStep(i: nat, cmd: Op)
    | SendStep(i: nat, prev: nat, count: nat)
    | ReceiveStep(j: nat, m: Msg)
    | CountAckStep(i: nat, a: Ack)
    | CommitStep(i: nat)
    | ApplyStep(i: nat)

  ghost function Init(n: nat): Sys {
    Sys(map i | i in Ids(n) :: NewNode(i, Ids(n)), {}, {}, {}, map[], map[], map[], {})
  }

  ghost predicate IsQuorum(s: Sys, q: set<nat>) {
    q <= s.nodes.Keys && 2 * |q| > |s.nodes|
  }

  ghost predicate Voted(s: Sys, term: nat, voter: nat, cand: nat) {
    exists v :: v in s.votes && v.term == term && v.voter == voter && v.cand == cand
  }

  ghost predicate Enabled(s: Sys, step: Step) {
    match step
    case CampaignStep(i, t) => i in s.nodes && t > s.nodes[i].term
    case VoteStep(j, m) => j in s.nodes && m in s.net && m.VoteReq?
    case WinStep(i, q) =>
      && i in s.nodes && s.nodes[i].role == Candidate && IsQuorum(s, q)
      && forall v :: v in q ==> Voted(s, s.nodes[i].term, v, i)
    case ProposeStep(i, cmd) => i in s.nodes && s.nodes[i].role == Leader
    case SendStep(i, prev, count) =>
      i in s.nodes && s.nodes[i].role == Leader && prev + count <= |s.nodes[i].log|
    case ReceiveStep(j, m) => j in s.nodes && m in s.net && m.Append?
    case CountAckStep(i, a) =>
      i in s.nodes && a in s.acks && s.nodes[i].role == Leader && a.term == s.nodes[i].term
    case CommitStep(i) => i in s.nodes
    case ApplyStep(i) => i in s.nodes
  }

  ghost function Perform(s: Sys, step: Step): Sys
    requires Enabled(s, step)
  {
    match step
    case CampaignStep(i, t) =>
      // the driver raises the candidate's term past every term it has seen
      var n := s.nodes[i];
      s.(nodes := s.nodes[i := StartElection(n).(term := t)],
         camp := s.camp[(t, i) := n.log],
         votes := s.votes + {Vote(t, i, i, n.log, t in s.wins)},
         net := s.net + {VoteReq(t, i, |n.log|, LastTerm(n.log))})
    case VoteStep(j, m) =>
      var n := s.nodes[j];
      var granted := Grants(n, m.cand, m.term, m.lastIndex, m.lastTerm);
      s.(nodes := s.nodes[j := RequestVote(n, m.cand, m.term, m.lastIndex, m.lastTerm)],
         votes := if granted then s.votes + {Vote(m.term, j, m.cand, n.log, m.term in s.wins)} else s.votes)
    case WinStep(i, q) =>
      var n := s.nodes[i];
      s.(nodes := s.nodes[i := BecomeLeader(n)],
         wins := s.wins[n.term := Win(i, n.log, q)],
         leaders := s.leaders[n.term := n.log])
    case ProposeStep(i, cmd) =>
      var n := Propose(s.nodes[i], cmd);
      s.(nodes := s.nodes[i := n],
         leaders := s.leaders[n.term := n.log],
         acks := s.acks + {Ack(n.term, i, |n.log|)})
    case SendStep(i, prev, count) =>
      var n := s.nodes[i];
      var prevTerm := if prev == 0 then 0 else n.log[prev - 1].term;
      s.(net := s.net + {Append(n.term, i, prev, prevTerm, n.log[prev..prev + count], n.commitIdx)})
    case ReceiveStep(j, m) =>
      var (n, reply) := AppendEntries(s.nodes[j], m.leader, m.term, m.prevIndex, m.prevTerm, m.entries, m.commit);
      s.(nodes := s.nodes[j := n],
         acks := if reply.None? then s.acks + {Ack(m.term, j, m.prevIndex + |m.entries|)} else s.acks)
    case CountAckStep(i, a) =>
      var n := s.nodes[i];
      s.(nodes := s.nodes[i := n.(matchIdx := n.matchIdx[a.follower := a.index])])
    case CommitStep(i) =>
      var n := s.nodes[i];
      var n' := AdvanceCommit(n);
      s.(nodes := s.nodes[i := n'],
         chosen := if n'.commitIdx == n.commitIdx then s.chosen
                   else s.chosen + {Choice(n.term, n'.commitIdx, Replicas(n.matchIdx, n'.commitIdx))})
    case ApplyStep(i) =>
      s.(nodes := s.nodes[i := ApplyCommitted(s.nodes[i])])
  }

  /** A run: any number of enabled steps, in any order, from `n` fresh nodes. */
  ghost predicate IsRun(n: nat, run: seq<Sys>) {
    && |run| > 0 && run[0] == Init(n)
    && forall k: nat {:trigger StepAt(run, k)} :: k + 1 < |run| ==> StepAt(run, k)
  }

  ghost predicate StepAt(run: seq<Sys>, k: nat)
    requires k + 1 < |run|
  {
    exists step :: Enabled(run[k], step) && run[k + 1] == Perform(run[k], step)
  }
}
