/** The in-process driver: one atomic call at a time over `n` nodes. */
module RaftCluster {
  import opened Types
  import opened RaftNode
  import opened RaftCatchUp

  datatype Cluster = Cluster(nodes: map<nat, NodeState>, leader: Option<nat>, down: set<nat>) {
    /** Nodes are numbered `0..n`, each knowing all the others. */
    ghost predicate WellFormed() {
      && (forall i: nat :: i in nodes <==> i < N())
      && (leader.Some? ==> leader.value < N())
    }

    function N(): nat { |nodes.Keys| }

    function Live(): set<nat> {
      set i | i in nodes && i !in down
    }
  }

  function New(n: nat): Cluster {
    Cluster(map i | i in Ids(n) :: NewNode(i, Ids(n)), None, {})
  }

  // ---- election ----

  function Tip(n: NodeState): (nat, nat) { (LastTerm(n.log), |n.log|) }

  predicate TipAbove(a: (nat, nat), b: (nat, nat)) { a.0 > b.0 || (a.0 == b.0 && a.1 > b.1) }

  /** The best candidate among live ids below `k`: the first with the highest tip. */
  function PickCandidate(c: Cluster, k: nat): (best: Option<nat>)
    requires c.WellFormed() && k <= c.N()
    ensures best.Some? ==> best.value < k && best.value in c.Live()
  {
    if k == 0 then None
    else
      var best := PickCandidate(c, k - 1);
      if k - 1 !in c.Live() then best
      else if best.None? || TipAbove(Tip(c.nodes[k - 1]), Tip(c.nodes[best.value])) then Some(k - 1)
      else best
  }

  function MaxTerm(nodes: map<nat, NodeState>, k: nat): (m: nat)
    requires forall i :: 0 <= i < k ==> i in nodes
    ensures forall i :: 0 <= i < k ==> nodes[i].term <= m
    ensures k > 0 ==> exists i :: 0 <= i < k && nodes[i].term == m
  {
    if k == 0 then 0 else Max(MaxTerm(nodes, k - 1), nodes[k - 1].term)
  }

  /** The live nodes below `k` other than `id`. */
  function Others(c: Cluster, id: nat, k: nat): set<nat> {
    set i | i in c.Live() && i < k && i != id
  }

  /** What a candidate holding `log` passes to a voter as `(lastIndex, lastTerm)`. The call site passes
      its tip the other way round; `swapped` says whether to do as the call site does. */
  function VoteArgs(log: Log, swapped: bool): (nat, nat) {
    if swapped then (LastTerm(log), |log|) else (|log|, LastTerm(log))
  }

  /** Who grants `id` its vote at `term`, among `voters`. */
  function Granters(c: Cluster, id: nat, term: nat, swapped: bool, voters: set<nat>): set<nat>
    requires id in c.nodes && voters <= c.nodes.Keys
  {
    var (x, y) := VoteArgs(c.nodes[id].log, swapped);
    set i | i in voters && Grants(c.nodes[i], id, term, x, y)
  }

  predicate Wins(c: Cluster, id: nat, term: nat, swapped: bool)
    requires id in c.nodes
  {
    1 + |Granters(c, id, term, swapped, Others(c, id, c.N()))| >= Quorum(c.N())
  }

  /** A node after the campaign of `id`. */
  function AfterCampaign(c: Cluster, id: nat, term: nat, swapped: bool, i: nat): NodeState
    requires id in c.nodes && i in c.nodes
  {
    if i == id then
      var n := StartElection(c.nodes[id]).(term := term);
      if Wins(c, id, term, swapped) then BecomeLeader(n) else n
    else if i in c.down then c.nodes[i]
    else
      var (x, y) := VoteArgs(c.nodes[id].log, swapped);
      RequestVote(c.nodes[i], id, term, x, y)
  }

  function Campaign(c: Cluster, id: nat, term: nat, swapped: bool): Cluster
    requires id in c.nodes
  {
    var won := Wins(c, id, term, swapped);
    Cluster(map i | i in c.nodes :: AfterCampaign(c, id, term, swapped, i),
            if won then Some(id) else None,
            if won then c.down - {id} else c.down)
  }

  predicate NeedsElection(c: Cluster) {
    |c.Live()| >= Quorum(c.N()) && (c.leader.None? || c.leader.value in c.down)
  }

  function CampaignTerm(c: Cluster): nat
    requires c.WellFormed()
  {
    MaxTerm(c.nodes, c.N()) + 1
  }

  /** Who leads the next call, if anyone does. */
  function LeaderFor(c: Cluster, swapped: bool): Option<nat>
    requires c.WellFormed()
  {
    if |c.Live()| < Quorum(c.N()) then None
    else if !NeedsElection(c) then c.leader
    else
      var cand := PickCandidate(c, c.N());
      if cand.Some? && Wins(c, cand.value, CampaignTerm(c), swapped) then cand else None
  }

  /** The cluster after making sure of a leader. */
  function EnsureLeader(c: Cluster, swapped: bool): Cluster
    requires c.WellFormed()
  {
    if |c.Live()| < Quorum(c.N()) then c.(leader := None)
    else if !NeedsElection(c) then c
    else
      var cand := PickCandidate(c, c.N());
      if cand.None? then c.(leader := None) else Campaign(c, cand.value, CampaignTerm(c), swapped)
  }

  // ---- replication ----

  /** The nodes among `peers` that a catch-up through `idx` succeeds on. */
  function Caught(nodes: map<nat, NodeState>, peers: set<nat>, leader: nat, idx: nat, lterm: nat): set<nat>
    requires leader in nodes && peers <= nodes.Keys && idx <= |nodes[leader].log|
  {
    set i | i in peers && CatchUp(SourceOf(nodes[leader]), nodes[i], idx, lterm).1
  }

  /** `nodes` after every one of `peers` (not the leader) has been caught up through `idx`. */
  function CatchUpAll(nodes: map<nat, NodeState>, peers: set<nat>, leader: nat, idx: nat,
                      lterm: nat): (r: map<nat, NodeState>)
    requires leader in nodes && idx <= |nodes[leader].log|
    ensures r.Keys == nodes.Keys
  {
    map i | i in nodes :: if i in peers then CatchUp(SourceOf(nodes[leader]), nodes[i], idx, lterm).0 else nodes[i]
  }

  /** The leader after recording each of `acked` as holding its log through `idx`. */
  function RecordAcks(n: NodeState, acked: set<nat>, idx: nat): NodeState {
    n.(matchIdx := map i | i in n.matchIdx.Keys + acked :: if i in acked then idx else n.matchIdx[i])
  }

  function CommitTo(n: NodeState, upto: nat): NodeState {
    ApplyCommitted(n.(commitIdx := Max(n.commitIdx, upto)))
  }

  /** Commit and apply through `upto` on every one of `ids` whose log has the leader's term there. */
  function ApplyAll(nodes: map<nat, NodeState>, ids: set<nat>, leader: nat, upto: nat): (r: map<nat, NodeState>)
    requires leader in nodes
    ensures r.Keys == nodes.Keys
  {
    map i | i in nodes ::
      if i in ids && TermOf(nodes[i].log, upto) == TermOf(nodes[leader].log, upto) then CommitTo(nodes[i], upto)
      else nodes[i]
  }

  datatype Outcome<+T> = Ok(value: T) | NoLeader | Panic

  /** The leader's entry sent to every live peer and the acknowledgements recorded. */
  function Replicate(nodes: map<nat, NodeState>, peers: set<nat>, leader: nat): map<nat, NodeState>
    requires leader in nodes && peers <= nodes.Keys
  {
    var idx, lterm := |nodes[leader].log|, nodes[leader].term;
    var caught := CatchUpAll(nodes, peers, leader, idx, lterm);
    caught[leader := RecordAcks(caught[leader], Caught(nodes, peers, leader, idx, lterm), idx)]
  }

  /** The end of a write at `idx`, once a majority holds it. */
  function Finish(c: Cluster, l: nat, idx: nat): (Cluster, Outcome<nat>)
    requires l in c.nodes
  {
    var committed := c.nodes[l := AdvanceCommit(c.nodes[l])];
    var ci := committed[l].commitIdx;
    if ci != idx then (c.(nodes := committed), Panic)
    else (c.(nodes := ApplyAll(committed, c.Live(), l, ci)), Ok(ci))
  }

  /** A write, once `l` leads `c`. */
  function CommitUnder(c: Cluster, l: nat, op: Op): (Cluster, Outcome<nat>)
    requires l in c.nodes
  {
    if c.nodes[l].role != Leader then (c, Panic)
    else
      var nodes := c.nodes[l := Propose(c.nodes[l], op)];
      var idx := |nodes[l].log|;
      var peers := Others(c, l, c.N());
      var counted := Replicate(nodes, peers, l);
      if 1 + |Caught(nodes, peers, l, idx, nodes[l].term)| < Quorum(c.N()) then (c.(nodes := counted), NoLeader)
      else Finish(c.(nodes := counted), l, idx)
  }

  function Commit(c: Cluster, op: Op, swapped: bool): (Cluster, Outcome<nat>)
    requires c.WellFormed()
  {
    var l := LeaderFor(c, swapped);
    if l.None? then (EnsureLeader(c, swapped), NoLeader)
    else CommitUnder(EnsureLeader(c, swapped), l.value, op)
  }

  /** Every live follower brought up to the tip of `l`, and everything committed applied. */
  function Sync(c: Cluster, l: nat): Cluster
    requires l in c.nodes
  {
    var caught := CatchUpAll(c.nodes, Others(c, l, c.N()), l, |c.nodes[l].log|, c.nodes[l].term);
    c.(nodes := ApplyAll(caught, c.Live(), l, caught[l].commitIdx))
  }

  function Lookup(m: Map, key: Bytes): Option<Bytes> {
    if key in m then Some(m[key].value) else None
  }

  /** A read, once `l` leads `c` and the live nodes are in step. */
  function ReadUnder(c: Cluster, l: nat, key: Bytes): Outcome<Option<Bytes>>
    requires l in c.nodes
  {
    var v := Lookup(c.nodes[l].state, key);
    if exists i :: i in c.Live() && Lookup(c.nodes[i].state, key) != v then Panic else Ok(v)
  }

  function Get(c: Cluster, key: Bytes, swapped: bool): (Cluster, Outcome<Option<Bytes>>)
    requires c.WellFormed()
  {
    var l := LeaderFor(c, swapped);
    if l.None? then (EnsureLeader(c, swapped), NoLeader)
    else
      var d := Sync(EnsureLeader(c, swapped), l.value);
      (d, ReadUnder(d, l.value, key))
  }

  /** The keys that start with `prefix`, and their values. */
  function Prefixed(m: Map, prefix: Bytes): map<Bytes, Bytes> {
    map k | k in m && prefix <= k :: m[k].value
  }

  function Scan(c: Cluster, prefix: Bytes, swapped: bool): (Cluster, Outcome<map<Bytes, Bytes>>)
    requires c.WellFormed()
  {
    var l := LeaderFor(c, swapped);
    if l.None? then (EnsureLeader(c, swapped), NoLeader)
    else
      var d := Sync(EnsureLeader(c, swapped), l.value);
      (d, Ok(Prefixed(d.nodes[l.value].state, prefix)))
  }

  function Fail(c: Cluster, id: nat): Cluster {
    c.(leader := if c.leader == Some(id) then None else c.leader, down := c.down + {id})
  }

  function Revive(c: Cluster, id: nat): Cluster {
    c.(down := c.down - {id})
  }
}
