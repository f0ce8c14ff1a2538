/** Bringing one follower's log into agreement with the leader's by resending appends. */
module RaftCatchUp {
  import opened Types
  import opened RaftNode

  /** Log matching between two logs (section 5.3 of the Raft paper). */
  ghost predicate LogsMatch(a: Log, b: Log) {
    forall k :: 0 <= k < |a| && k < |b| && a[k].term == b[k].term ==> a[..k + 1] == b[..k + 1]
  }

  /** How far two logs agree from the start. */
  function CommonPrefix(a: Log, b: Log): (d: nat)
    ensures d <= |a| && d <= |b| && a[..d] == b[..d]
    ensures forall k :: 0 <= k < d ==> a[k] == b[k]
    ensures d < |a| && d < |b| ==> a[d] != b[d]
  {
    if a == [] || b == [] || a[0] != b[0] then 0
    else
      var d := CommonPrefix(a[1..], b[1..]);
      assert a[..d + 1] == [a[0]] + a[1..][..d] && b[..d + 1] == [b[0]] + b[1..][..d];
      d + 1
  }

  /** What a leader's appends carry of it. */
  datatype Source = Source(id: nat, log: Log, commitIdx: nat)

  function SourceOf(n: NodeState): Source { Source(n.id, n.log, n.commitIdx) }

  /** Where a round resends from: the follower's tip, but always at least the entry at `idx`. */
  function ResendPrev(peer: NodeState, idx: nat): nat
    requires idx > 0
  {
    Min(|peer.log| + 1, idx) - 1
  }

  /** One round: append everything after the resend point through `idx`. */
  function Round(leader: Source, peer: NodeState, idx: nat, lterm: nat): (NodeState, Option<nat>)
    requires 0 < idx <= |leader.log|
  {
    var prev := ResendPrev(peer, idx);
    var prevTerm := if prev == 0 then 0 else leader.log[prev - 1].term;
    AppendEntries(peer, leader.id, lterm, prev, prevTerm, leader.log[prev..idx], leader.commitIdx)
  }

  /** A rejected round that is not about terms drops the follower's last entry or more. */
  lemma RejectedRoundShrinks(leader: Source, peer: NodeState, idx: nat, lterm: nat)
    requires 0 < idx <= |leader.log|
    ensures var (p, reply) := Round(leader, peer, idx, lterm);
            && |p.log| <= Max(|peer.log|, idx)
            && (peer.term > lterm ==> reply.Some? && p == peer)
            && (peer.term <= lterm && reply.Some? ==> |p.log| < |peer.log|)
  {
    var prev := ResendPrev(peer, idx);
    MergeLength(peer.log, prev, leader.log[prev..idx]);
  }

  lemma MergeLength(log: Log, prev: nat, entries: Log)
    requires prev <= |log|
    ensures |Merge(log, prev + 1, entries)| <= Max(|log|, prev + |entries|)
  {
    MergeReplacesFromFirstConflict(log, prev, entries);
  }

  function CatchUp(leader: Source, peer: NodeState, idx: nat, lterm: nat): (NodeState, bool)
    requires idx <= |leader.log|
    decreases |peer.log|
  {
    if idx == 0 then (peer, true)
    else
      var (p, reply) := Round(leader, peer, idx, lterm);
      if reply.None? then (p, true)
      else if |p.log| == |peer.log| then (p, false)
      else
        RejectedRoundShrinks(leader, peer, idx, lterm);
        CatchUp(leader, p, idx, lterm)
  }

  /** An accepted round leaves the follower equal to the leader through `idx`, and drops nothing
      before the first divergence. */
  lemma AcceptedRound(leader: Source, peer: NodeState, idx: nat, lterm: nat)
    requires 0 < idx <= |leader.log| && LogsMatch(leader.log, peer.log)
    requires Round(leader, peer, idx, lterm).1.None?
    ensures var p := Round(leader, peer, idx, lterm).0;
            && leader.log[..idx] <= p.log
            && (p.log == peer.log || p.log == leader.log[..idx])
            && peer.log[..CommonPrefix(leader.log, peer.log)] <= p.log
  {
    var prev := ResendPrev(peer, idx);
    var l, log, entries := leader.log, peer.log, leader.log[prev..idx];
    assert prev > 0 ==> l[..prev] == log[..prev];
    MergeReplacesFromFirstConflict(log, prev, entries);
    var c := FirstConflict(log, prev, entries);
    if c > prev {
      assert entries[c - 1 - prev] == l[c - 1];
      assert l[..c] == log[..c];
    }
    assert log[..c] == l[..c];
    var d := CommonPrefix(l, log);
    if c < idx {
      assert log[..c] + entries[c - prev..] == l[..idx];
      assert entries[c - prev] == l[c];
      assert c < |log| ==> log[c] != l[c];
      assert d <= c;
      assert log[..d] == l[..d] <= l[..idx];
    } else {
      assert log[..d] <= log;
    }
  }

  lemma RejectedRound(leader: Source, peer: NodeState, idx: nat, lterm: nat)
    requires 0 < idx <= |leader.log| && LogsMatch(leader.log, peer.log) && peer.term <= lterm
    requires Round(leader, peer, idx, lterm).1.Some?
    ensures var p := Round(leader, peer, idx, lterm).0;
            && p.log <= peer.log && |p.log| < |peer.log| && p.term == lterm
            && LogsMatch(leader.log, p.log)
            && peer.log[..CommonPrefix(leader.log, peer.log)] <= p.log
            && CommonPrefix(leader.log, p.log) == CommonPrefix(leader.log, peer.log)
  {
    var prev := ResendPrev(peer, idx);
    var p := Round(leader, peer, idx, lterm).0;
    assert p.log == peer.log[..prev - 1];
    assert leader.log[prev - 1].term != peer.log[prev - 1].term;
    var d := CommonPrefix(leader.log, peer.log);
    assert peer.log[..d] == p.log[..d];
    var e := CommonPrefix(leader.log, p.log);
    assert leader.log[..e] == p.log[..e] == peer.log[..e];
    CommonPrefixIsLongest(leader.log, peer.log, e);
    CommonPrefixIsLongest(leader.log, p.log, d);
    forall k | 0 <= k < |leader.log| && k < |p.log| && leader.log[k].term == p.log[k].term
      ensures leader.log[..k + 1] == p.log[..k + 1]
    {
      assert peer.log[k] == p.log[k] && peer.log[..k + 1] == p.log[..k + 1];
    }
  }

  lemma CommonPrefixIsLongest(a: Log, b: Log, e: nat)
    requires e <= |a| && e <= |b| && a[..e] == b[..e]
    ensures e <= CommonPrefix(a, b)
  {
    forall k | 0 <= k < e
      ensures a[k] == b[k]
    {
      assert a[..e][k] == b[..e][k];
    }
  }

  /** Catch-up always repairs: it fails exactly when the follower's term is higher, and otherwise
      leaves the follower equal to the leader through `idx` with everything before the first
      divergence still in place. */
  lemma {:induction false} CatchUpRepairs(leader: Source, peer: NodeState, idx: nat, lterm: nat)
    requires idx <= |leader.log| && LogsMatch(leader.log, peer.log)
    ensures var (p, ok) := CatchUp(leader, peer, idx, lterm);
            && (ok <==> idx == 0 || peer.term <= lterm)
            && (!ok || idx == 0 ==> p == peer)
            && (ok ==> leader.log[..idx] <= p.log && (p.log <= peer.log || p.log == leader.log[..idx]))
            && peer.log[..CommonPrefix(leader.log, peer.log)] <= p.log
            && (ok && idx > 0 ==> KeepsRest(leader, peer, p, idx, lterm))
    decreases |peer.log|
  {
    if idx > 0 {
      RejectedRoundShrinks(leader, peer, idx, lterm);
      var (p, reply) := Round(leader, peer, idx, lterm);
      if reply.None? {
        AcceptedRound(leader, peer, idx, lterm);
      } else if peer.term <= lterm {
        RejectedRound(leader, peer, idx, lterm);
        CatchUpRepairs(leader, p, idx, lterm);
      } else {
        assert peer.log[..CommonPrefix(leader.log, peer.log)] <= peer.log;
      }
    } else {
      assert peer.log[..CommonPrefix(leader.log, peer.log)] <= peer.log;
    }
  }

  /** Beyond its log, a caught-up follower has only adopted the leader and its commit index. */
  ghost predicate KeepsRest(leader: Source, peer: NodeState, p: NodeState, idx: nat, lterm: nat) {
    && p == peer.(term := lterm, votedFor := p.votedFor, role := Follower, leaderId := Some(leader.id),
                  log := p.log, commitIdx := p.commitIdx)
    && p.commitIdx == Max(peer.commitIdx, Min(leader.commitIdx, idx))
  }

  /** The loop as the driver runs it. */
  method PeerCatchUp(leader: Source, follower: NodeState, idx: nat, lterm: nat)
    returns (peer: NodeState, ok: bool)
    requires idx <= |leader.log|
    ensures (peer, ok) == CatchUp(leader, follower, idx, lterm)
  {
    peer := follower;
    if idx == 0 {
      return peer, true;
    }
    while true
      invariant CatchUp(leader, peer, idx, lterm) == CatchUp(leader, follower, idx, lterm)
      decreases |peer.log|
    {
      var start := Min(|peer.log| + 1, idx);
      var prev := start - 1;
      var prevTerm := if prev == 0 then 0 else leader.log[prev - 1].term;
      var before := |peer.log|;
      RejectedRoundShrinks(leader, peer, idx, lterm);
      var (p, reply) := AppendEntries(peer, leader.id, lterm, prev, prevTerm, leader.log[prev..idx], leader.commitIdx);
      if reply.None? {
        return p, true;
      }
      if |p.log| == before {
        return p, false;
      }
      peer := p;
    }
  }
}
