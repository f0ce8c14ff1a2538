/** The driver's shared state and its calls, as loops over the nodes, proved to compute what the
    cluster functions say. */
module RaftInner {
  import opened Types
  import opened RaftNode
  import opened RaftCatchUp
  import opened RaftCluster
  import opened RaftDriver
  import opened Loops
  import opened PrefixScan

  // ---- what the loops compute ----

  lemma CampaignByLoop(c: Cluster, id: nat, term: nat, start: map<nat, NodeState>, x: nat, y: nat,
                       f: NodeState -> NodeState, p: NodeState -> bool)
    requires c.WellFormed() && id in c.nodes && (x, y) == VoteArgs(c.nodes[id].log, true)
    requires start.Keys == c.nodes.Keys && forall k :: k in c.nodes && k != id ==> start[k] == c.nodes[k]
    requires forall n :: f(n) == RequestVote(n, id, term, x, y)
    requires forall n :: p(n) == Grants(n, id, term, x, y)
    ensures Others(c, id, c.N()) <= c.nodes.Keys
    ensures var ids := Others(c, id, c.N());
            && Picked(start, ids, p, c.N()) == Granters(c, id, term, true, ids)
            && Mapped(start, ids, f, c.N())[id] == start[id]
            && forall k :: k in c.nodes && k != id ==>
                 Mapped(start, ids, f, c.N())[k] == AfterCampaign(c, id, term, true, k)
  {
  }

  lemma CampaignOutcome(c: Cluster, id: nat, term: nat, m: map<nat, NodeState>)
    requires id in c.nodes && m.Keys == c.nodes.Keys && m[id] == StartElection(c.nodes[id]).(term := term)
    requires forall k :: k in c.nodes && k != id ==> m[k] == AfterCampaign(c, id, term, true, k)
    ensures Campaign(c, id, term, true).nodes == if Wins(c, id, term, true) then m[id := BecomeLeader(m[id])] else m
  {
  }

  lemma RecordNone(n: NodeState, idx: nat)
    ensures RecordAcks(n, {}, idx) == n
  {
    assert RecordAcks(n, {}, idx).matchIdx == n.matchIdx;
  }

  lemma CatchUpByLoop(c: Cluster, l: nat, lterm: nat, f: NodeState -> NodeState, p: NodeState -> bool)
    requires c.WellFormed() && l in c.nodes
    requires forall n :: f(n) == CatchUp(SourceOf(c.nodes[l]), n, |c.nodes[l].log|, lterm).0
    requires forall n :: p(n) == CatchUp(SourceOf(c.nodes[l]), n, |c.nodes[l].log|, lterm).1
    ensures Others(c, l, c.N()) <= c.nodes.Keys
    ensures var ids := Others(c, l, c.N());
            && Picked(c.nodes, ids, p, c.N()) == Caught(c.nodes, ids, l, |c.nodes[l].log|, lterm)
            && Mapped(c.nodes, ids, f, c.N()) == CatchUpAll(c.nodes, ids, l, |c.nodes[l].log|, lterm)
  {
  }

  lemma ApplyByLoop(c: Cluster, l: nat, upto: nat, f: NodeState -> NodeState)
    requires c.WellFormed() && l in c.nodes
    requires forall n :: f(n) == CommitIfAgrees(n, TermOf(c.nodes[l].log, upto), upto)
    ensures Mapped(c.nodes, c.Live(), f, c.N()) == ApplyAll(c.nodes, c.Live(), l, upto)
  {
  }

  function CommitIfAgrees(n: NodeState, termAt: Option<nat>, upto: nat): NodeState {
    if TermOf(n.log, upto) == termAt then CommitTo(n, upto) else n
  }

  ghost function Recorded(nodes: map<nat, NodeState>, l: nat, acked: set<nat>, idx: nat,
                          record: bool): map<nat, NodeState>
    requires l in nodes
  {
    if record then nodes[l := RecordAcks(nodes[l], acked, idx)] else nodes
  }

  lemma RecordedStep(m: map<nat, NodeState>, l: nat, acked: set<nat>, idx: nat, record: bool, i: nat, n: NodeState,
                     ok: bool)
    requires l in m && i in m && i != l
    ensures Recorded(m, l, acked, idx, record)[i] == m[i]
    ensures SourceOf(Recorded(m, l, acked, idx, record)[l]) == SourceOf(m[l])
    ensures var r := Recorded(m, l, acked, idx, record)[i := n];
            Recorded(m[i := n], l, if ok then acked + {i} else acked, idx, record)
            == if ok && record then r[l := r[l].(matchIdx := r[l].matchIdx[i := idx])] else r
  {
    var r := Recorded(m, l, acked, idx, record)[i := n];
    if ok && record {
      assert RecordAcks(m[l], acked + {i}, idx).matchIdx == r[l].matchIdx[i := idx];
    }
  }

  /** The map a list of pairs stands for. */
  function Bindings(ps: seq<(Bytes, Bytes)>): map<Bytes, Bytes> {
    if ps == [] then map[] else Bindings(ps[..|ps| - 1])[ps[|ps| - 1].0 := ps[|ps| - 1].1]
  }

  lemma {:induction false} BindingsAgree(ps: seq<(Bytes, Bytes)>, m: Map)
    requires forall i :: 0 <= i < |ps| ==> ps[i].0 in m && ps[i].1 == m[ps[i].0].value
    ensures forall k :: k in Bindings(ps) ==> k in m && Bindings(ps)[k] == m[k].value && (k, m[k].value) in ps
    ensures forall i :: 0 <= i < |ps| ==> ps[i].0 in Bindings(ps)
  {
    if ps != [] {
      BindingsAgree(ps[..|ps| - 1], m);
      assert ps == ps[..|ps| - 1] + [ps[|ps| - 1]];
    }
  }

  lemma BindingsOf(ps: seq<(Bytes, Bytes)>, m: Map, prefix: Bytes)
    requires forall k, v :: (k, v) in ps <==> k in m && prefix <= k && v == m[k].value
    ensures Bindings(ps) == Prefixed(m, prefix)
  {
    hide Bindings;
    assert forall i :: 0 <= i < |ps| ==> (ps[i].0, ps[i].1) in ps;
    BindingsAgree(ps, m);
    forall k | k in Prefixed(m, prefix) ensures k in Bindings(ps) {
      var j :| 0 <= j < |ps| && ps[j] == (k, m[k].value);
    }
  }

  class Inner {
    var nodes: map<nat, NodeState>
    var leader: Option<nat>
    var down: set<nat>
    ghost var history: Log

    function View(): Cluster
      reads this
    {
      Cluster(nodes, leader, down)
    }

    ghost predicate Valid()
      reads this
    {
      Inv(View(), history)
    }

    constructor (n: nat)
      ensures Valid() && View() == New(n) && history == []
    {
      nodes := map i | i in Ids(n) :: NewNode(i, Ids(n));
      leader := None;
      down := {};
      history := [];
      new;
      NewCluster(n);
    }

    /** The live node with the most up-to-date log, the lowest id among equals. */
    method FindCandidate() returns (cand: Option<nat>)
      requires View().WellFormed()
      ensures cand == PickCandidate(View(), View().N())
    {
      cand := None;
      var best := (0, 0);
      for id := 0 to |nodes.Keys|
        invariant cand == PickCandidate(View(), id)
        invariant best == if cand.None? then (0, 0) else Tip(nodes[cand.value])
      {
        if id !in down {
          var key := (LastTerm(nodes[id].log), |nodes[id].log|);
          if TipAbove(key, best) || (key == best && cand.None?) {
            cand := Some(id);
            best := key;
          }
        }
      }
    }

    method FindMaxTerm() returns (m: nat)
      requires View().WellFormed()
      ensures m == MaxTerm(nodes, |nodes.Keys|)
    {
      m := 0;
      for id := 0 to |nodes.Keys|
        invariant m == MaxTerm(nodes, id)
      {
        if nodes[id].term > m {
          m := nodes[id].term;
        }
      }
    }

    /** Ask every live node but the candidate for its vote, counting the candidate's own. */
    method AskVotes(id: nat, term: nat, lastIndex: nat, lastTerm: nat,
                    ghost ids: set<nat>, ghost f: NodeState -> NodeState,
                    ghost p: NodeState -> bool) returns (votes: nat)
      requires View().WellFormed() && ids == Others(View(), id, |nodes.Keys|)
      requires forall n :: f(n) == RequestVote(n, id, term, lastIndex, lastTerm)
      requires forall n :: p(n) == Grants(n, id, term, lastIndex, lastTerm)
      modifies this`nodes
      ensures nodes == Mapped(old(nodes), ids, f, |old(nodes).Keys|)
      ensures votes == 1 + |Picked(old(nodes), ids, p, |old(nodes).Keys|)|
    {
      votes := 1;
      ghost var start := nodes;
      StartOfLoop(start, ids, f, p);
      for i := 0 to |nodes.Keys|
        invariant nodes == Mapped(start, ids, f, i)
        invariant votes == 1 + |Picked(start, ids, p, i)|
      {
        MappedStep(start, ids, f, i);
        PickedStep(start, ids, p, i);
        if i !in down && i != id {
          var granted := Grants(nodes[i], id, term, lastIndex, lastTerm);
          nodes := nodes[i := RequestVote(nodes[i], id, term, lastIndex, lastTerm)];
          if granted {
            votes := votes + 1;
          }
        }
      }
    }

    method CampaignAs(id: nat, term: nat) returns (won: Option<nat>)
      requires View().WellFormed() && id in nodes
      modifies this`nodes, this`leader, this`down
      ensures View() == Campaign(old(View()), id, term, true)
      ensures won == (if Wins(old(View()), id, term, true) then Some(id) else None)
    {
      ghost var c := View();
      nodes := nodes[id := StartElection(nodes[id]).(term := term)];
      ghost var start := nodes;
      var lastTerm, lastIndex := LastTerm(nodes[id].log), |nodes[id].log|;
      ghost var f := (n: NodeState) => RequestVote(n, id, term, lastTerm, lastIndex);
      ghost var p := (n: NodeState) => Grants(n, id, term, lastTerm, lastIndex);
      assert Others(View(), id, |nodes.Keys|) == Others(c, id, c.N());
      // the callee's parameters are (last index, last term)
      var votes := AskVotes(id, term, lastTerm, lastIndex, Others(c, id, c.N()), f, p);
      CampaignByLoop(c, id, term, start, lastTerm, lastIndex, f, p);
      CampaignOutcome(c, id, term, nodes);
      if votes >= Quorum(|nodes.Keys|) {
        nodes := nodes[id := BecomeLeader(nodes[id])];
        leader := Some(id);
        down := down - {id};
        won := Some(id);
      } else {
        leader := None;
        won := None;
      }
    }

    /** Run an election. */
    method Elect() returns (won: Option<nat>)
      requires View().WellFormed() && PickCandidate(View(), View().N()).Some?
      modifies this`nodes, this`leader, this`down
      ensures var c := old(View());
              var id := PickCandidate(c, c.N()).value;
              && View() == Campaign(c, id, CampaignTerm(c), true)
              && won == (if Wins(c, id, CampaignTerm(c), true) then Some(id) else None)
    {
      var cand := FindCandidate();
      var m := FindMaxTerm();
      won := CampaignAs(cand.value, m + 1);
    }

    method EnsureLeaderCall() returns (l: Option<nat>)
      requires Valid()
      modifies this`nodes, this`leader, this`down
      ensures View() == EnsureLeader(old(View()), true) && l == LeaderFor(old(View()), true)
      ensures Valid() && leader == l && SameData(old(View()), View())
      ensures l.Some? <==> Serves(old(View()), history)
      ensures l.Some? ==> 2 * |View().Live()| > View().N()
    {
      hide Holders, CommitUnder, Sync, Serves;
      CallSiteOrderIsAvailableWhen(View(), history);
      EnsureLeaderKeeps(View(), history, true);
      ghost var c := View();
      if |c.Live()| >= Quorum(c.N()) {
        CandidateHoldsHistory(c, history);
      }
      if |View().Live()| < Quorum(|nodes.Keys|) {
        leader := None;
        return None;
      }
      if leader.Some? && leader.value !in down {
        return leader;
      }
      leader := None;
      l := Elect();
    }

    /** Catch every live follower up to the leader's tip, recording acknowledgements when asked to. */
    method CatchUpFollowers(l: nat, idx: nat, lterm: nat, record: bool,
                            ghost ids: set<nat>, ghost f: NodeState -> NodeState,
                            ghost p: NodeState -> bool) returns (acks: nat)
      requires View().WellFormed() && l in nodes && idx == |nodes[l].log| && ids == Others(View(), l, |nodes.Keys|)
      requires forall n :: f(n) == CatchUp(SourceOf(nodes[l]), n, idx, lterm).0
      requires forall n :: p(n) == CatchUp(SourceOf(nodes[l]), n, idx, lterm).1
      modifies this`nodes
      ensures var acked := Picked(old(nodes), ids, p, |old(nodes).Keys|);
              && acks == 1 + |acked|
              && nodes == Recorded(Mapped(old(nodes), ids, f, |old(nodes).Keys|), l, acked, idx, record)
    {
      acks := 1;
      ghost var start := nodes;
      StartOfLoop(start, ids, f, p);
      RecordNone(nodes[l], idx);
      for i := 0 to |nodes.Keys|
        invariant l in Mapped(start, ids, f, i)
        invariant nodes == Recorded(Mapped(start, ids, f, i), l, Picked(start, ids, p, i), idx, record)
        invariant SourceOf(nodes[l]) == SourceOf(start[l])
        invariant acks == 1 + |Picked(start, ids, p, i)|
      {
        MappedStep(start, ids, f, i);
        PickedStep(start, ids, p, i);
        if i !in down && i != l {
          ghost var m, acked := Mapped(start, ids, f, i), Picked(start, ids, p, i);
          RecordedStep(m, l, acked, idx, record, i, f(start[i]), p(start[i]));
          var n, ok := PeerCatchUp(SourceOf(nodes[l]), nodes[i], idx, lterm);
          nodes := nodes[i := n];
          if ok {
            if record {
              nodes := nodes[l := nodes[l].(matchIdx := nodes[l].matchIdx[i := idx])];
            }
            acks := acks + 1;
          }
        }
      }
    }

    /** Apply the committed suffix through `upto` on every live node that agrees with the leader there. */
    method ApplyCommittedAll(l: nat, upto: nat)
      requires View().WellFormed() && l in nodes
      modifies this`nodes
      ensures nodes == ApplyAll(old(nodes), old(View()).Live(), l, upto)
    {
      ghost var c := View();
      var termAt := TermOf(nodes[l].log, upto);
      ghost var f := (n: NodeState) => CommitIfAgrees(n, termAt, upto);
      StartOfLoop(c.nodes, c.Live(), f, n => false);
      for i := 0 to |nodes.Keys|
        invariant nodes == Mapped(c.nodes, c.Live(), f, i)
      {
        MappedStep(c.nodes, c.Live(), f, i);
        if i !in down {
          nodes := nodes[i := CommitIfAgrees(nodes[i], termAt, upto)];
        }
      }
      ApplyByLoop(c, l, upto, f);
    }

    /** The end of a write. The assertion is the source's own: a majority holds the entry, so it is
        committed. */
    method FinishAs(l: nat, idx: nat) returns (ci: nat)
      requires View().WellFormed() && l in nodes && Finish(View(), l, idx).1.Ok?
      modifies this`nodes
      ensures (View(), Ok(ci)) == Finish(old(View()), l, idx)
    {
      nodes := nodes[l := AdvanceCommit(nodes[l])];
      ci := nodes[l].commitIdx;
      assert ci == idx;
      assert View().Live() == old(View()).Live();
      ApplyCommittedAll(l, ci);
    }

    /** The replicated write, once `l` leads. */
    method CommitAs(l: nat, op: Op) returns (r: Outcome<nat>)
      requires View().WellFormed() && l in nodes && nodes[l].role == Leader
      requires !CommitUnder(View(), l, op).1.Panic?
      modifies this`nodes
      ensures (View(), r) == CommitUnder(old(View()), l, op)
    {
      hide CatchUp, Round;
      nodes := nodes[l := Propose(nodes[l], op)];
      var idx := |nodes[l].log|;
      assert Others(View(), l, |nodes.Keys|) == Others(old(View()), l, |nodes.Keys|);
      var acks := ReplicateTo(l, idx, nodes[l].term);
      if acks < Quorum(|nodes.Keys|) {
        return NoLeader;
      }
      var ci := FinishAs(l, idx);
      return Ok(ci);
    }

    method ReplicateTo(l: nat, idx: nat, lterm: nat) returns (acks: nat)
      requires View().WellFormed() && l in nodes && idx == |nodes[l].log| && lterm == nodes[l].term
      modifies this`nodes
      ensures var c := old(View());
              var peers := Others(c, l, c.N());
              && peers <= c.nodes.Keys
              && nodes == Replicate(c.nodes, peers, l)
              && acks == 1 + |Caught(c.nodes, peers, l, idx, lterm)|
    {
      hide CatchUp, Round;
      ghost var c, src := View(), SourceOf(nodes[l]);
      ghost var f := (n: NodeState) => CatchUp(src, n, idx, lterm).0;
      ghost var p := (n: NodeState) => CatchUp(src, n, idx, lterm).1;
      acks := CatchUpFollowers(l, idx, lterm, true, Others(c, l, c.N()), f, p);
      CatchUpByLoop(c, l, lterm, f, p);
    }

    method CatchUpLive(l: nat)
      requires View().WellFormed() && l in nodes
      modifies this`nodes
      ensures var c := old(View());
              nodes == CatchUpAll(c.nodes, Others(c, l, c.N()), l, |c.nodes[l].log|, c.nodes[l].term)
    {
      var tip, lterm := |nodes[l].log|, nodes[l].term;
      ghost var c, src := View(), SourceOf(nodes[l]);
      ghost var f := (n: NodeState) => CatchUp(src, n, tip, lterm).0;
      ghost var p := (n: NodeState) => CatchUp(src, n, tip, lterm).1;
      var _ := CatchUpFollowers(l, tip, lterm, false, Others(c, l, c.N()), f, p);
      CatchUpByLoop(c, l, lterm, f, p);
    }

    method SyncFollowers(l: nat)
      requires View().WellFormed() && l in nodes
      modifies this`nodes
      ensures View() == Sync(old(View()), l)
    {
      CatchUpLive(l);
      assert View().Live() == old(View()).Live();
      ApplyCommittedAll(l, nodes[l].commitIdx);
    }

    /** Bring a live majority in step: every live node ends with the whole history applied. */
    method Converge(l: nat)
      requires Valid() && leader == Some(l) && 2 * |View().Live()| > View().N()
      modifies this`nodes
      ensures Valid() && nodes.Keys == old(nodes.Keys)
      ensures forall i :: i in nodes && i !in down ==> nodes[i].state == Replay(history)
    {
      hide Sync, CatchUpAll, CatchUp, ApplyCommitted;
      SyncResult(View(), history, l);
      SyncFollowers(l);
    }

    /** A put or delete, once `l` leads a live majority. */
    method CommitLed(l: nat, op: Op) returns (r: Outcome<nat>)
      requires Valid() && leader == Some(l) && 2 * |View().Live()| > View().N()
      modifies this`nodes, this`history
      ensures Valid() && (View(), r) == CommitUnder(old(View()), l, op)
      ensures history == old(history) + [LogEntry(old(nodes)[l].term, op)] && r == Ok(|history|)
    {
      hide CommitUnder;
      CommitUnderResult(View(), history, l, op);
      history := history + [LogEntry(nodes[l].term, op)];
      r := CommitAs(l, op);
    }

    /** A put or delete. */
    method CommitCall(op: Op) returns (r: Outcome<nat>)
      requires Valid()
      modifies this
      ensures Valid() && Answers(old(history), Write(op), Wrote(r), history)
      ensures (View(), r) == Commit(old(View()), op, true)
      ensures r.NoLeader? ==> SameData(old(View()), View())
      ensures r.NoLeader? <==> !Serves(old(View()), old(history))
    {
      hide PickCandidate, CommitUnder, Inv, EnsureLeader;
      ghost var c0 := View();
      var l := EnsureLeaderCall();
      if l.None? {
        return NoLeader;
      }
      assert View().Live() == c0.Live();
      r := CommitLed(l.value, op);
    }

    /** A leader read of a converged live set. The assertion is the source's own: no live node disagrees. */
    method GetCall(key: Bytes) returns (r: Outcome<Option<Bytes>>)
      requires Valid()
      modifies this`nodes, this`leader, this`down
      ensures Valid() && Answers(history, Read(key), ReadValue(r), history)
      ensures r.NoLeader? ==> SameData(old(View()), View())
      ensures r.NoLeader? <==> !Serves(old(View()), old(history))
    {
      hide Serves, Finds, EnsureLeader, LeaderFor, PickCandidate, Holders, NodeInv, SortedTerms, SameNodeData, Replay;
      ghost var c0 := View();
      var l := EnsureLeaderCall();
      if l.None? {
        return NoLeader;
      }
      ghost var c := View();
      assert c.Live() == c0.Live();
      Converge(l.value);
      var v := Lookup(nodes[l.value].state, key);
      ReplayFinds(history, key);
      for i := 0 to |nodes.Keys| {
        assert i !in down ==> Lookup(nodes[i].state, key) == v;
      }
      return Ok(v);
    }

    /** A leader scan of a converged live set: the history's bindings under the prefix, in key order. */
    method ScanCall(prefix: Bytes) returns (r: Outcome<seq<(Bytes, Bytes)>>)
      requires Valid()
      modifies this`nodes, this`leader, this`down
      ensures Valid() && !r.Panic?
      ensures r.Ok? ==> InKeyOrder(r.value)
      ensures r.Ok? ==> Answers(history, ScanFor(prefix), ScanValues(Ok(Bindings(r.value))), history)
      ensures r.NoLeader? ==> SameData(old(View()), View())
      ensures r.NoLeader? <==> !Serves(old(View()), old(history))
    {
      hide Serves, FindsUnder, EnsureLeader, LeaderFor, PickCandidate, Holders, NodeInv, SortedTerms, SameNodeData,
           Replay, Prefixed, Bindings;
      ghost var c0 := View();
      var l := EnsureLeaderCall();
      if l.None? {
        return NoLeader;
      }
      ghost var c := View();
      assert c.Live() == c0.Live();
      Converge(l.value);
      var out := ScanLoop(nodes[l.value].state, prefix);
      BindingsOf(out, nodes[l.value].state, prefix);
      ReplayFindsUnder(history, prefix);
      return Ok(out);
    }

    method FailCall(id: nat)
      requires Valid()
      modifies this`leader, this`down
      ensures Valid() && View() == Fail(old(View()), id)
    {
      FailKeeps(View(), history, Fail(View(), id));
      if leader == Some(id) {
        leader := None;
      }
      down := down + {id};
    }

    method ReviveCall(id: nat)
      requires Valid()
      modifies this`down
      ensures Valid() && View() == Revive(old(View()), id)
    {
      FailKeeps(View(), history, Revive(View(), id));
      down := down - {id};
    }
  }
}
