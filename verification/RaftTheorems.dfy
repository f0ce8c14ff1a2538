/** What the protocol guarantees over every run. */
module RaftTheorems {
  import opened RaftNode
  import opened RaftProtocol
  import opened RaftSafety
  import opened RaftInvariant

  lemma {:induction false} InvHolds(n: nat, run: seq<Sys>, k: nat)
    requires IsRun(n, run) && k < |run|
    ensures Inv(run[k])
  {
    if k == 0 {
      InitHolds(n);
    } else {
      InvHolds(n, run, k - 1);
      assert StepAt(run, k - 1);
      var step :| Enabled(run[k - 1], step) && run[k] == Perform(run[k - 1], step);
      StepKeeps(run[k - 1], step);
    }
  }

  /** What a node has committed, and everything it has applied, stays put. */
  ghost predicate CommitsGrow(s: Sys, s': Sys) {
    && s'.nodes.Keys == s.nodes.Keys
    && forall i :: i in s.nodes ==> CommitGrows(s.nodes[i], s'.nodes[i])
  }

  ghost predicate CommitGrows(n: NodeState, n': NodeState) {
    && n.commitIdx <= n'.commitIdx && n.applied <= n'.applied && n.term <= n'.term
    && n.commitIdx <= |n.log| && n'.commitIdx <= |n'.log|
    && n.log[..n.commitIdx] <= n'.log
  }

  lemma StepGrows(s: Sys, step: Step)
    requires Inv(s) && Enabled(s, step)
    ensures Grows(s, Perform(s, step))
  {
    hide Merge, AppendEntries, RequestVote, Grants, AdvanceCommit, ApplyCommitted, MsgOk, AckOk, ChoiceOk, NodeOk,
         VotesOk;
    match step {
      case CampaignStep(i, t) => assert (t, i) in s.camp ==> CampaignOk(s, t, i);
      case WinStep(i, q) => WinnerIsFirst(s, i, q); assert s.wins.Keys == s.leaders.Keys;
      case ProposeStep(i, cmd) => assert RoleOk(s, i, s.nodes[i]);
      case _ =>
    }
  }

  lemma ReceiveCommitGrows(s: Sys, j: nat, m: Msg)
    requires Inv(s) && Enabled(s, ReceiveStep(j, m))
    ensures CommitGrows(s.nodes[j], Perform(s, ReceiveStep(j, m)).nodes[j])
  {
    ReceiveKeeps(s, j, m);
    var n, s' := s.nodes[j], Perform(s, ReceiveStep(j, m));
    assert NodeOk(s, j, s.nodes[j]) && NodeOk(s', j, s'.nodes[j]);
    if m.term >= n.term {
      var c := ReceivedLog(s, j, m);
      BackedInLeader(s, n.log[..n.commitIdx], n.term, m.term);
      assert n.commitIdx <= c;
      assert n.log[..n.commitIdx] <= n.log[..c];
    }
  }

  /** Steps that neither receive, commit nor apply leave every commit index and every committed entry. */
  lemma QuietStepKeeps(s: Sys, step: Step, i: nat)
    requires Inv(s) && Enabled(s, step) && i in s.nodes
    requires !step.ReceiveStep? && !step.CommitStep? && !step.ApplyStep?
    ensures CommitGrows(s.nodes[i], Perform(s, step).nodes[i])
  {
    hide Inv, AppendEntries, AdvanceCommit, ApplyCommitted, Grants;
    NodeIndexes(s, i);
  }

  lemma NodeIndexes(s: Sys, i: nat)
    requires Inv(s) && i in s.nodes
    ensures s.nodes[i].applied <= s.nodes[i].commitIdx <= |s.nodes[i].log|
    ensures s.nodes[i].state == Replay(s.nodes[i].log[..s.nodes[i].applied])
  {
    assert NodeOk(s, i, s.nodes[i]);
  }

  lemma CommitStepGrows(s: Sys, j: nat, i: nat)
    requires Inv(s) && Enabled(s, CommitStep(j)) && i in s.nodes
    ensures CommitGrows(s.nodes[i], Perform(s, CommitStep(j)).nodes[i])
  {
    hide Inv, HighestCommittable, MajorityHolds;
    NodeIndexes(s, i);
    HighestCommittableIsMax(s.nodes[i], |s.nodes[i].log|);
  }

  lemma ApplyStepGrows(s: Sys, j: nat, i: nat)
    requires Inv(s) && Enabled(s, ApplyStep(j)) && i in s.nodes
    ensures CommitGrows(s.nodes[i], Perform(s, ApplyStep(j)).nodes[i])
  {
    hide Inv, ApplyCommitted, Leaves, Replay;
    NodeIndexes(s, i);
    ApplyCommittedFoldsLog(s.nodes[i]);
  }

  lemma ReceiveStepGrows(s: Sys, j: nat, m: Msg, i: nat)
    requires Inv(s) && Enabled(s, ReceiveStep(j, m)) && i in s.nodes
    ensures CommitGrows(s.nodes[i], Perform(s, ReceiveStep(j, m)).nodes[i])
  {
    hide Inv, AppendEntries, Replay;
    NodeIndexes(s, i);
    ReceiveCommitGrows(s, j, m);
  }

  lemma StepCommitsGrow(s: Sys, step: Step)
    requires Inv(s) && Enabled(s, step)
    ensures CommitsGrow(s, Perform(s, step))
  {
    hide Inv, AppendEntries, RequestVote, AdvanceCommit, ApplyCommitted, CommitGrows;
    forall i | i in s.nodes
      ensures CommitGrows(s.nodes[i], Perform(s, step).nodes[i])
    {
      match step {
        case ReceiveStep(j, m) => ReceiveStepGrows(s, j, m, i);
        case CommitStep(j) => CommitStepGrows(s, j, i);
        case ApplyStep(j) => ApplyStepGrows(s, j, i);
        case _ => QuietStepKeeps(s, step, i);
      }
    }
  }

  lemma GrowsTransitively(s: Sys, u: Sys, w: Sys)
    requires CommitsGrow(s, u) && Grows(s, u) && CommitsGrow(u, w) && Grows(u, w)
    ensures CommitsGrow(s, w) && Grows(s, w)
  {
    forall i | i in s.nodes
      ensures CommitGrows(s.nodes[i], w.nodes[i])
    {
      var x, y, z := s.nodes[i], u.nodes[i], w.nodes[i];
      assert CommitGrows(x, y) && CommitGrows(y, z);
      assert x.log[..x.commitIdx] <= y.log[..y.commitIdx];
    }
  }

  /** A committed entry is never truncated: not by any later message, election or leader. */
  lemma {:induction false} CommittedIsForever(n: nat, run: seq<Sys>, a: nat, b: nat)
    requires IsRun(n, run) && a <= b < |run|
    ensures CommitsGrow(run[a], run[b]) && Grows(run[a], run[b])
    decreases b - a
  {
    if a == b {
      InvHolds(n, run, a);
      forall i | i in run[a].nodes
        ensures CommitGrows(run[a].nodes[i], run[a].nodes[i])
      {
        assert NodeOk(run[a], i, run[a].nodes[i]);
      }
    } else {
      CommittedIsForever(n, run, a, b - 1);
      SuccessorGrows(n, run, b - 1);
      GrowsTransitively(run[a], run[b - 1], run[b]);
    }
  }

  lemma SuccessorGrows(n: nat, run: seq<Sys>, k: nat)
    requires IsRun(n, run) && k + 1 < |run|
    ensures CommitsGrow(run[k], run[k + 1]) && Grows(run[k], run[k + 1])
  {
    InvHolds(n, run, k);
    assert StepAt(run, k);
    var step :| Enabled(run[k], step) && run[k + 1] == Perform(run[k], step);
    StepCommitsGrow(run[k], step);
    StepGrows(run[k], step);
  }

  /** State-machine safety: whatever two nodes have committed, at whatever two moments of a run, is
      one sequence of entries as far as both go. */
  lemma CommittedLogsAgree(n: nat, run: seq<Sys>, a: nat, i: nat, b: nat, j: nat)
    requires IsRun(n, run) && a <= b < |run| && i in run[a].nodes && j in run[b].nodes
    ensures var x, y := run[a].nodes[i], run[b].nodes[j];
            && x.commitIdx <= |x.log| && y.commitIdx <= |y.log|
            && (x.log[..x.commitIdx] <= y.log[..y.commitIdx] || y.log[..y.commitIdx] <= x.log[..x.commitIdx])
  {
    CommittedIsForever(n, run, a, b);
    InvHolds(n, run, b);
    var x, x', y := run[a].nodes[i], run[b].nodes[i], run[b].nodes[j];
    assert CommitGrows(x, x');
    assert NodeOk(run[b], i, run[b].nodes[i]) && NodeOk(run[b], j, run[b].nodes[j]);
    BackedAgree(run[b], x'.log[..x'.commitIdx], x'.term, y.log[..y.commitIdx], y.term);
    assert x.log[..x.commitIdx] <= x'.log[..x'.commitIdx];
  }

  /** No two nodes ever apply different commands at one index, and a node's state is the fold of its
      log: nodes that have applied equally far hold the same map. */
  lemma AppliedStatesAgree(n: nat, run: seq<Sys>, a: nat, i: nat, b: nat, j: nat)
    requires IsRun(n, run) && a <= b < |run| && i in run[a].nodes && j in run[b].nodes
    ensures var x, y := run[a].nodes[i], run[b].nodes[j];
            && x.applied <= x.commitIdx <= |x.log| && y.applied <= y.commitIdx <= |y.log|
            && (forall k :: 0 <= k < x.applied && k < y.applied ==> x.log[k].cmd == y.log[k].cmd)
            && x.state == Replay(x.log[..x.applied]) && Leaves(x.log[..x.applied], x.state)
            && (x.applied == y.applied ==> x.state == y.state)
  {
    hide Leaves;
    InvHolds(n, run, a);
    InvHolds(n, run, b);
    CommittedLogsAgree(n, run, a, i, b, j);
    var x, y := run[a].nodes[i], run[b].nodes[j];
    assert NodeOk(run[a], i, run[a].nodes[i]) && NodeOk(run[b], j, run[b].nodes[j]);
    ReplayLeaves(x.log[..x.applied]);
    var p, q := x.log[..x.commitIdx], y.log[..y.commitIdx];
    forall k | 0 <= k < x.applied && k < y.applied
      ensures x.log[k] == y.log[k]
    {
      assert p[k] == q[k];
    }
    if x.applied == y.applied {
      assert x.log[..x.applied] == y.log[..y.applied];
    }
  }

  /** Election safety: two leaders of one term, at whatever moments, are one node. */
  lemma OneLeaderPerTerm(n: nat, run: seq<Sys>, a: nat, i: nat, b: nat, j: nat)
    requires IsRun(n, run) && a <= b < |run| && i in run[a].nodes && j in run[b].nodes
    requires run[a].nodes[i].role == Leader && run[b].nodes[j].role == Leader
    requires run[a].nodes[i].term == run[b].nodes[j].term
    ensures i == j
  {
    InvHolds(n, run, a);
    InvHolds(n, run, b);
    CommittedIsForever(n, run, a, b);
    assert RoleOk(run[a], i, run[a].nodes[i]) && RoleOk(run[b], j, run[b].nodes[j]);
  }

  /** Leader completeness: a leader holds everything that any node had committed, at that moment or
      earlier, in its own term or a lower one. */
  lemma LeadersHoldCommitted(n: nat, run: seq<Sys>, a: nat, i: nat, b: nat, j: nat)
    requires IsRun(n, run) && a <= b < |run| && i in run[a].nodes && j in run[b].nodes
    requires run[b].nodes[j].role == Leader && run[a].nodes[i].term <= run[b].nodes[j].term
    ensures run[a].nodes[i].commitIdx <= |run[a].nodes[i].log|
    ensures run[a].nodes[i].log[..run[a].nodes[i].commitIdx] <= run[b].nodes[j].log
  {
    InvHolds(n, run, a);
    InvHolds(n, run, b);
    CommittedIsForever(n, run, a, b);
    var x, y := run[a].nodes[i], run[b].nodes[j];
    assert NodeOk(run[a], i, run[a].nodes[i]) && RoleOk(run[b], j, run[b].nodes[j]);
    var p := x.log[..x.commitIdx];
    BackedGrows(run[a], run[b], p, x.term, p, x.term);
    BackedInLeader(run[b], p, x.term, y.term);
  }

  /** Log matching over runs: two logs, at one moment, with the same term at an index are equal up
      to it. */
  lemma LogsMatch(n: nat, run: seq<Sys>, a: nat, i: nat, j: nat, k: nat)
    requires IsRun(n, run) && a < |run| && i in run[a].nodes && j in run[a].nodes
    requires k < |run[a].nodes[i].log| && k < |run[a].nodes[j].log|
    requires run[a].nodes[i].log[k].term == run[a].nodes[j].log[k].term
    ensures run[a].nodes[i].log[..k + 1] == run[a].nodes[j].log[..k + 1]
  {
    InvHolds(n, run, a);
    assert NodeOk(run[a], i, run[a].nodes[i]) && NodeOk(run[a], j, run[a].nodes[j]);
    LogMatching(run[a].nodes[i].log, run[a].nodes[j].log, run[a].leaders, k);
  }
}
