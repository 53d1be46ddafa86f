/** What holds in every run of the cluster, and what holds exactly when requests have no holes. */
module Safety {
  import opened Wrappers
  import opened Crud
  import opened ReplicatedLog
  import opened Cluster
  import Reachability
  import L = Leader
  import F = Follower

  ghost predicate Next(s: State, step: Step, t: State) {
    Enabled(s, step) && t == Do(s, step)
  }

  /** A run of a cluster with the given registry and number of followers. */
  ghost predicate Run(models: seq<Model>, followers: nat, states: seq<State>, steps: seq<Step>) {
    Reachability.Path(Next, states, steps) && states[0] == Init(models, followers)
  }

  lemma RunStep(models: seq<Model>, followers: nat, states: seq<State>, steps: seq<Step>, k: nat)
    requires Run(models, followers, states, steps) && k < |steps|
    ensures Enabled(states[k], steps[k]) && states[k + 1] == Do(states[k], steps[k])
  {
    assert Reachability.Linked(Next, states, steps, k);
  }

  ghost function InvOf(models: seq<Model>, followers: nat): State -> bool {
    (s: State) => Inv(s) && s.models == models && |s.followers| == followers
  }

  lemma NextKeepsInv(models: seq<Model>, followers: nat)
    ensures Reachability.Keeps(Next, InvOf(models, followers))
  {
    forall s: State, step: Step, t: State | InvOf(models, followers)(s) && Next(s, step, t)
      ensures InvOf(models, followers)(t)
    {
      StepKeepsInv(s, step);
      StepKeepsShape(s, step);
    }
  }

  lemma RunKeepsInv(
      models: seq<Model>, followers: nat, states: seq<State>, steps: seq<Step>, k: nat)
    requires Run(models, followers, states, steps) && k <= |steps|
    ensures Inv(states[k]) && states[k].models == models && |states[k].followers| == followers
  {
    InitInv(models, followers);
    NextKeepsInv(models, followers);
    Reachability.PathKeeps(Next, InvOf(models, followers), states, steps, k);
  }

  lemma StepKeepsShape(s: State, step: Step)
    requires Enabled(s, step)
    ensures Do(s, step).models == s.models && |Do(s, step).followers| == |s.followers|
    ensures s.ops <= Do(s, step).ops
  {
  }

  lemma {:induction false} HistoryGrows(
      models: seq<Model>, followers: nat, states: seq<State>, steps: seq<Step>, j: nat, k: nat)
    requires Run(models, followers, states, steps) && j <= k <= |steps|
    ensures states[j].ops <= states[k].ops
  {
    if j < k {
      HistoryGrows(models, followers, states, steps, j, k - 1);
      RunStep(models, followers, states, steps, k - 1);
      StepKeepsShape(states[k - 1], steps[k - 1]);
    }
  }

  // ---------------------------------------------------------------- state machine safety

  datatype NodeId = TheLeader | AFollower(peer: nat)

  predicate IsNode(s: State, n: NodeId) {
    n.AFollower? ==> n.peer < |s.followers|
  }

  function StoresOf(s: State, n: NodeId): Stores
    requires IsNode(s, n)
  {
    if n.TheLeader? then s.leader.stores else s.followers[n.peer].stores
  }

  /** Indices of the entries a node has applied, in the order it applied them. */
  function TraceOf(s: State, n: NodeId): seq<nat>
    requires IsNode(s, n)
  {
    if n.TheLeader? then s.leader.trace else s.followers[n.peer].trace
  }

  function AppliedOf(s: State, n: NodeId): nat
    requires IsNode(s, n)
  {
    if n.TheLeader? then s.leader.applied else s.followers[n.peer].applied
  }

  /** No handler of the node holds the apply lock. */
  predicate Unlocked(s: State, n: NodeId)
    requires IsNode(s, n)
  {
    if n.TheLeader? then s.leader.lock == None else s.followers[n.peer].lock == None
  }

  /**
    In every reachable state, every node has applied entries 1, 2, ... of the leader's history in
    order, once each, and its stores are exactly what applying them gives; while nobody holds the
    apply lock, `applied` counts them.
   */
  lemma StateMachineSafety(
      models: seq<Model>, followers: nat, states: seq<State>, steps: seq<Step>, k: nat, n: NodeId)
    requires Run(models, followers, states, steps) && k <= |steps| && IsNode(states[k], n)
    ensures var s := states[k];
            var count := |TraceOf(s, n)|;
            && TraceOf(s, n) == UpTo(count)
            && count <= |s.ops|
            && Replay(models, s.ops[..count]) == Ok(StoresOf(s, n))
            && AppliedOf(s, n) <= count <= AppliedOf(s, n) + 1
            && (Unlocked(s, n) ==> count == AppliedOf(s, n))
  {
    RunKeepsInv(models, followers, states, steps, k);
  }

  /**
    Two nodes that have applied equally many entries hold equal stores, even when they are looked at
    at different times of a run.
   */
  lemma EqualProgressEqualStores(
      models: seq<Model>, followers: nat, states: seq<State>, steps: seq<Step>,
      j: nat, m: NodeId, k: nat, n: NodeId)
    requires Run(models, followers, states, steps) && j <= k <= |steps|
    requires IsNode(states[j], m) && IsNode(states[k], n)
    requires |TraceOf(states[j], m)| == |TraceOf(states[k], n)|
    ensures StoresOf(states[j], m) == StoresOf(states[k], n)
  {
    StateMachineSafety(models, followers, states, steps, j, m);
    StateMachineSafety(models, followers, states, steps, k, n);
    HistoryGrows(models, followers, states, steps, j, k);
    var count := |TraceOf(states[j], m)|;
    assert states[j].ops[..count] == states[k].ops[..count];
  }

  // ---------------------------------------------------------------- a failed write

  lemma StepKeepsFailed(s: State, step: Step, i: nat)
    requires Inv(s) && Enabled(s, step) && L.At(s.leader, i, L.Failed)
    ensures L.At(Do(s, step).leader, i, L.Failed)
  {
    if LeaderPart(step).Some? {
      L.FailedWriteBlocksLaterOnes(s.models, s.ops, |s.followers|, s.leader, LeaderPart(step).value, i);
    }
  }

  /**
    After a handler has answered 503 or 500 for entry i, no state of the run acknowledges entry i or
    any later one: the handlers behind it wait for an apply that never comes.
   */
  lemma FailedWriteBlocksForever(
      models: seq<Model>, followers: nat, states: seq<State>, steps: seq<Step>, i: nat, j: nat, k: nat, later: nat)
    requires Run(models, followers, states, steps) && j <= k <= |steps|
    requires L.At(states[j].leader, i, L.Failed) && i <= later
    ensures L.At(states[k].leader, i, L.Failed)
    ensures !L.At(states[k].leader, later, L.Acknowledged)
  {
    FailedStaysFailed(models, followers, states, steps, i, j, k);
    RunKeepsInv(models, followers, states, steps, k);
    NothingAcknowledgedBehindFailed(states[k], i, later);
  }

  /** Entries are acknowledged exactly up to `applied`, which stops before a failed one. */
  lemma NothingAcknowledgedBehindFailed(s: State, i: nat, later: nat)
    requires Inv(s) && L.At(s.leader, i, L.Failed) && i <= later
    ensures !L.At(s.leader, later, L.Acknowledged)
  {
    assert L.TurnOk(s.leader, i);
    if later <= |s.leader.writes| {
      assert L.TurnOk(s.leader, later);
    }
  }

  lemma {:induction false} FailedStaysFailed(
      models: seq<Model>, followers: nat, states: seq<State>, steps: seq<Step>, i: nat, j: nat, k: nat)
    requires Run(models, followers, states, steps) && j <= k <= |steps|
    requires L.At(states[j].leader, i, L.Failed)
    ensures L.At(states[k].leader, i, L.Failed)
  {
    if j < k {
      FailedStaysFailed(models, followers, states, steps, i, j, k - 1);
      NextStaysFailed(models, followers, states, steps, i, k - 1);
    }
  }

  lemma NextStaysFailed(
      models: seq<Model>, followers: nat, states: seq<State>, steps: seq<Step>, i: nat, k: nat)
    requires Run(models, followers, states, steps) && k < |steps| && L.At(states[k].leader, i, L.Failed)
    ensures L.At(states[k + 1].leader, i, L.Failed)
  {
    RunKeepsInv(models, followers, states, steps, k);
    RunStep(models, followers, states, steps, k);
    StepKeepsFailed(states[k], steps[k], i);
  }

  // ---------------------------------------------------------------- quorums

  /** A set of followers that is, together with the leader, a strict majority of all nodes. */
  ghost predicate Quorum(s: State, peers: set<nat>) {
    && (forall p :: p in peers ==> p < |s.followers|)
    && |peers| + 1 >= Majority(|s.followers| + 1)
  }

  /** Two majorities of the same nodes share a node. */
  lemma MajoritiesIntersect<T>(all: set<T>, a: set<T>, b: set<T>)
    requires a <= all && b <= all
    requires |a| >= Majority(|all|) && |b| >= Majority(|all|)
    ensures exists n :: n in a && n in b
  {
    assert a + b <= all && |a + b| <= |all| by {
      assert all == (a + b) + (all - (a + b));
    }
    assert |a * b| == |a| + |b| - |a + b|;
    var n :| n in a * b;
  }

  function FollowerNodes(peers: set<nat>): set<NodeId> {
    set p | p in peers :: AFollower(p)
  }

  lemma {:induction false} FollowerNodesSize(peers: set<nat>)
    ensures |FollowerNodes(peers)| == |peers|
    decreases |peers|
  {
    if peers == {} {
      assert FollowerNodes(peers) == {};
    } else {
      var p :| p in peers;
      FollowerNodesSize(peers - {p});
      assert FollowerNodes(peers) == FollowerNodes(peers - {p}) + {AFollower(p)};
    }
  }

  function FirstPeers(n: nat): (peers: set<nat>)
    ensures |peers| == n && forall p: nat :: p in peers <==> p < n
  {
    if n == 0 then {} else FirstPeers(n - 1) + {n - 1}
  }

  function AllNodes(s: State): (nodes: set<NodeId>)
    ensures forall n :: n in nodes <==> IsNode(s, n)
  {
    {TheLeader} + FollowerNodes(FirstPeers(|s.followers|))
  }

  /** The leader with a quorum of followers shares a node with every majority of all nodes. */
  lemma QuorumMeetsEveryMajority(s: State, peers: set<nat>, nodes: set<NodeId>)
    requires Quorum(s, peers)
    requires (forall n :: n in nodes ==> IsNode(s, n)) && |nodes| >= Majority(|s.followers| + 1)
    ensures exists n :: n in nodes && (n == TheLeader || (n.AFollower? && n.peer in peers))
  {
    var quorum := {TheLeader} + FollowerNodes(peers);
    FollowerNodesSize(peers);
    FollowerNodesSize(FirstPeers(|s.followers|));
    MajoritiesIntersect(AllNodes(s), quorum, nodes);
  }

  lemma CommittedHasQuorum(s: State, i: nat)
    requires Inv(s) && 1 <= i <= |s.leader.writes| && s.leader.writes[i - 1].committed
    ensures Quorum(s, s.leader.writes[i - 1].acks)
  {
    assert L.WriteOk(s.ops, |s.followers|, s.leader, i);
  }

  /** A counted follower stores everything the write's request carried. */
  lemma AckStoresRequest(s: State, i: nat, p: nat)
    requires Inv(s) && 1 <= i <= |s.leader.writes| && p in s.leader.writes[i - 1].acks
    ensures p < |s.followers| && s.leader.writes[i - 1].sent.Keys <= s.followers[p].log.Keys
    ensures F.Covers(F.Request(F.FromWrite(i), s.leader.writes[i - 1].sent, i), s.followers[p].applied)
  {
    assert Acked(s, i, p);
    var h: nat :| AckedBy(s, i, p, h);
    var f := s.followers[p];
    assert F.Inv(s.models, s.ops, f);
    assert F.PhaseOk(f, f.handlers[h].request, f.handlers[h].phase);
  }

  /** Once the leader has applied entry i, the handlers of all entries up to i are committed. */
  lemma AppliedMeansCommitted(s: State, i: nat)
    requires Inv(s) && 1 <= i <= s.leader.applied
    ensures i <= |s.leader.writes| && s.leader.writes[i - 1].committed && i in s.leader.writes[i - 1].sent
  {
    assert L.TurnOk(s.leader, i);
    assert L.WriteOk(s.ops, |s.followers|, s.leader, i);
  }

  /** The followers in `peers`, with the leader a majority, store entry j with its own operation. */
  ghost predicate StoredAt(s: State, peers: set<nat>, j: nat)
    requires 1 <= j <= |s.ops|
  {
    Quorum(s, peers) && forall p :: p in peers ==> j in s.followers[p].log && s.followers[p].log[j] == s.ops[j - 1]
  }

  /**
    When the leader has acknowledged entry i, every entry j up to i is stored, with its own
    operation, at a majority of the nodes. The majorities of different entries may differ.
   */
  lemma AcknowledgedEntriesAreStoredAtMajorities(s: State, i: nat, j: nat)
    requires Inv(s) && L.At(s.leader, i, L.Acknowledged) && 1 <= j <= i
    ensures j <= |s.ops| && exists peers :: StoredAt(s, peers, j)
    ensures j in s.leader.log && s.leader.log[j] == s.ops[j - 1]
  {
    assert L.TurnOk(s.leader, i);
    AppliedMeansCommitted(s, j);
    CommittedHasQuorum(s, j);
    var peers := s.leader.writes[j - 1].acks;
    forall p | p in peers
      ensures p < |s.followers| && j in s.followers[p].log && s.followers[p].log[j] == s.ops[j - 1]
    {
      AckStoresRequest(s, j, p);
      assert F.Inv(s.models, s.ops, s.followers[p]);
    }
    assert L.WriteOk(s.ops, |s.followers|, s.leader, j);
    assert StoredAt(s, peers, j);
  }

  function LogOf(s: State, n: NodeId): Log
    requires IsNode(s, n)
  {
    if n.TheLeader? then s.leader.log else s.followers[n.peer].log
  }

  /** Every majority of the nodes has a node that stores any given acknowledged entry, or one before it. */
  lemma EveryMajorityStoresAcknowledged(s: State, i: nat, j: nat, nodes: set<NodeId>)
    requires Inv(s) && L.At(s.leader, i, L.Acknowledged) && 1 <= j <= i
    requires (forall n :: n in nodes ==> IsNode(s, n)) && |nodes| >= Majority(|s.followers| + 1)
    ensures exists n :: n in nodes && j in LogOf(s, n) && LogOf(s, n)[j] == s.ops[j - 1]
  {
    AcknowledgedEntriesAreStoredAtMajorities(s, i, j);
    var peers :| StoredAt(s, peers, j);
    QuorumMeetsEveryMajority(s, peers, nodes);
  }

  /** The nodes of a quorum have applied entries 1..i in order. */
  ghost predicate AppliedAtQuorum(s: State, peers: set<nat>, i: nat) {
    && Quorum(s, peers)
    && s.leader.applied >= i
    && (forall p :: p in peers ==> s.followers[p].applied >= i)
    && (forall p :: p in peers ==> UpTo(i) <= s.followers[p].trace)
  }

  /**
    Acknowledged means applied at a majority, for a write whose own request carried every entry up
    to its own.
   */
  lemma AcknowledgedMeansAppliedAtMajority(s: State, i: nat)
    requires Inv(s) && L.At(s.leader, i, L.Acknowledged)
    requires HasPrefix(s.leader.writes[i - 1].sent, i)
    ensures AppliedAtQuorum(s, s.leader.writes[i - 1].acks, i)
  {
    assert L.TurnOk(s.leader, i);
    AppliedMeansCommitted(s, i);
    CommittedHasQuorum(s, i);
    forall p | p in s.leader.writes[i - 1].acks
      ensures p < |s.followers| && s.followers[p].applied >= i && UpTo(i) <= s.followers[p].trace
    {
      AckStoresRequest(s, i, p);
      assert F.Inv(s.models, s.ops, s.followers[p]);
    }
  }

  /**
    The leader's commit index is the last index of a request that a majority stores in full; if that
    request had no hole, a majority stores the whole prefix up to the commit index.
   */
  lemma CommitSafety(s: State) returns (i: nat)
    requires Inv(s) && s.leader.commit > 0
    ensures 1 <= i <= |s.leader.writes| && s.leader.writes[i - 1].committed
    ensures s.leader.commit == LastIndex(s.leader.writes[i - 1].sent)
    ensures Quorum(s, s.leader.writes[i - 1].acks)
    ensures forall p :: p in s.leader.writes[i - 1].acks ==>
              s.leader.writes[i - 1].sent.Keys <= s.followers[p].log.Keys
    ensures HoleFree(s.leader.writes[i - 1].sent) ==>
              && HasPrefix(s.leader.log, s.leader.commit)
              && forall p :: p in s.leader.writes[i - 1].acks ==> HasPrefix(s.followers[p].log, s.leader.commit)
  {
    i :| L.CommitSource(s.leader, i);
    CommittedHasQuorum(s, i);
    forall p | p in s.leader.writes[i - 1].acks
      ensures s.leader.writes[i - 1].sent.Keys <= s.followers[p].log.Keys
    {
      AckStoresRequest(s, i, p);
    }
    assert L.WriteOk(s.ops, |s.followers|, s.leader, i);
  }

  /**
    A request's entries are such that whoever stores them stores the whole prefix up to their end
    exactly when they have no hole themselves.
   */
  lemma StoringCoversPrefixIff(ops: seq<CrudOp>, entries: Log)
    requires Agrees(entries, ops)
    ensures HoleFree(entries) <==>
            forall log :: Agrees(log, ops) && entries.Keys <= log.Keys ==> HasPrefix(log, LastIndex(entries))
  {
    if forall log :: Agrees(log, ops) && entries.Keys <= log.Keys ==> HasPrefix(log, LastIndex(entries)) {
      assert Agrees(entries, ops) && entries.Keys <= entries.Keys;
    }
  }

  /**
    A request taken now carries every entry up to i exactly when every handler up to i has inserted
    its entry; this is the condition a sender can check before it sends.
   */
  lemma RequestIsHoleFreeIffNoPendingInsert(s: State, i: nat)
    requires Inv(s) && i <= |s.leader.writes|
    ensures HasPrefix(s.leader.log, i) <==> forall j :: 1 <= j <= i ==> !L.At(s.leader, j, L.Reserved)
  {
    forall j | 1 <= j <= i
      ensures j in s.leader.log <==> !L.At(s.leader, j, L.Reserved)
    {
      assert L.WriteOk(s.ops, |s.followers|, s.leader, j);
    }
  }

  /** Recorded progress never runs ahead of the follower's log. */
  lemma RecordedProgressIsStored(s: State, p: nat)
    requires Inv(s) && p < |s.followers|
    ensures s.leader.known[p] <= LastIndex(s.followers[p].log)
  {
  }
}
