/**
  What the cluster can do next: any followers that can apply what a write's request makes them list can
  answer it, and its handler can then commit. From this follows exactly when a send is safe to commit.
 */
module Continuations {
  import opened Wrappers
  import opened Crud
  import opened ReplicatedLog
  import opened Cluster
  import opened Safety
  import opened CleanRuns
  import opened ClusterReach
  import opened Answers
  import L = Leader
  import F = Follower
  import Reachability
  import Rounds = FollowerRounds

  // ---------------------------------------------------------------- followers answer

  lemma FollowerActs(s: State, p: nat, f: F.Node, a: F.Action, g: F.Node)
    requires p < |s.followers| && Rounds.StepOf(s.models)(f, a, g)
    ensures Next(s.(followers := s.followers[p := f]), AtFollower(p, a), s.(followers := s.followers[p := g]))
  {
    assert s.followers[p := f][p := g] == s.followers[p := g];
  }

  /** What a follower can do by itself, it can do in the cluster. */
  lemma FollowerReaches(s: State, p: nat, f: F.Node, g: F.Node)
    requires p < |s.followers| && Rounds.CanReach(s.models, f, g)
    ensures CanReach(s.(followers := s.followers[p := f]), s.(followers := s.followers[p := g]))
  {
    var next := Rounds.StepOf(s.models);
    var nodes: seq<F.Node>, actions: seq<F.Action> :| Reachability.Leads(next, f, nodes, actions, g);
    var states := seq(|nodes|, k requires 0 <= k < |nodes| => s.(followers := s.followers[p := nodes[k]]));
    var steps := seq(|actions|, k requires 0 <= k < |actions| => AtFollower(p, actions[k]));
    forall k: nat | k < |steps|
      ensures Reachability.Linked(Next, states, steps, k)
    {
      assert Reachability.Linked(next, nodes, actions, k);
      FollowerActs(s, p, nodes[k], actions[k], nodes[k + 1]);
    }
    assert Reachability.Leads(Next, states[0], states, steps, states[|steps|]);
  }

  predicate IsAnswer(f: F.Node, h: nat, r: F.Request) {
    && h < |f.handlers|
    && f.handlers[h].request == r
    && f.handlers[h].phase.Done? && f.handlers[h].phase.success
  }

  /** The follower has been brought up to date by a request with these entries and commit index. */
  predicate Served(f: F.Node, g: F.Node, entries: Log, commit: nat) {
    g.log == Merge(f.log, entries) && g.commit == Max(f.commit, commit)
  }

  /** Whatever the follower lists after merging a request applies. */
  ghost predicate CanServe(s: State, p: nat, entries: Log, commit: nat) {
    && p < |s.followers|
    && Rounds.ListedApply(s.models, s.ops, Merge(s.followers[p].log, entries), Max(s.followers[p].commit, commit))
  }

  /** A request on the network can be delivered to such a follower and answered with success. */
  lemma Deliver(s: State, r: F.Request, p: nat) returns (g: F.Node, h: nat)
    requires Inv(s) && CanServe(s, p, r.entries, r.leaderCommit)
    requires r in s.net && Deliverable(r, p)
    ensures CanReach(s, s.(followers := s.followers[p := g]))
    ensures IsAnswer(g, h, r) && Served(s.followers[p], g, r.entries, r.leaderCommit)
  {
    h := |s.followers[p].handlers|;
    var step := AtFollower(p, F.Receive(r));
    var t := Do(s, step);
    One(s, step);
    StepKeepsInv(s, step);
    g := Rounds.Serve(s.models, s.ops, t.followers[p], h);
    FollowerReaches(s, p, t.followers[p], g);
    Then(s, t, s.(followers := s.followers[p := g]));
  }

  function WithAcks(l: L.Node, i: nat, peers: set<nat>): L.Node
    requires 1 <= i <= |l.writes|
  {
    l.(writes := l.writes[i - 1 := l.writes[i - 1].(acks := l.writes[i - 1].acks + peers)])
  }

  /** These followers, and no others, have answered write i's request, and have been counted. */
  ghost predicate Answered(s: State, t: State, i: nat, peers: set<nat>) {
    && 1 <= i <= |s.leader.writes|
    && t == s.(leader := WithAcks(s.leader, i, peers), followers := t.followers)
    && |t.followers| == |s.followers|
    && (forall p :: 0 <= p < |s.followers| && p !in peers ==> t.followers[p] == s.followers[p])
    && (forall p :: 0 <= p < |s.followers| && p in peers ==>
          Served(s.followers[p], t.followers[p], s.leader.writes[i - 1].sent, i))
  }

  lemma CollectEffect(s: State, i: nat, p: nat, h: nat)
    requires L.At(s.leader, i, L.Replicating) && p < |s.followers|
    requires IsAnswer(s.followers[p], h, F.Request(F.FromWrite(i), s.leader.writes[i - 1].sent, i))
    ensures Enabled(s, Collect(i, p, h))
    ensures Do(s, Collect(i, p, h)) == s.(leader := WithAcks(s.leader, i, {p}))
  {
  }

  /** The follower can answer write i, which is waiting for answers. */
  ghost predicate CanAnswerWrite(s: State, i: nat, p: nat) {
    L.At(s.leader, i, L.Replicating) && CanServe(s, p, s.leader.writes[i - 1].sent, i)
  }

  lemma Answer(s: State, i: nat, p: nat) returns (t: State)
    requires Inv(s) && CanAnswerWrite(s, i, p)
    ensures CanReach(s, t) && Answered(s, t, i, {p})
  {
    assert WriteInNet(s, i);
    var g, h := Deliver(s, F.Request(F.FromWrite(i), s.leader.writes[i - 1].sent, i), p);
    var answered := s.(followers := s.followers[p := g]);
    CollectEffect(answered, i, p, h);
    t := Do(answered, Collect(i, p, h));
    One(answered, Collect(i, p, h));
    Then(s, answered, t);
  }

  lemma AcksThen(l: L.Node, i: nat, a: set<nat>, b: set<nat>)
    requires 1 <= i <= |l.writes|
    ensures WithAcks(WithAcks(l, i, a), i, b) == WithAcks(l, i, a + b)
  {
    var w := l.writes[i - 1];
    assert (w.acks + a) + b == w.acks + (a + b);
  }

  lemma AnsweredThen(s: State, t: State, u: State, i: nat, peers: set<nat>, p: nat)
    requires Answered(s, t, i, peers) && Answered(t, u, i, {p}) && p !in peers
    ensures Answered(s, u, i, peers + {p})
  {
    AcksThen(s.leader, i, peers, {p});
  }

  lemma NobodyAnswered(s: State, i: nat)
    requires 1 <= i <= |s.leader.writes|
    ensures Answered(s, s, i, {})
  {
    assert s.leader.writes[i - 1].acks + {} == s.leader.writes[i - 1].acks;
    assert WithAcks(s.leader, i, {}).writes == s.leader.writes;
  }

  lemma StillCanAnswer(s: State, u: State, i: nat, peers: set<nat>, p: nat)
    requires Answered(s, u, i, peers) && CanAnswerWrite(s, i, p) && p !in peers
    ensures CanAnswerWrite(u, i, p)
  {
  }

  lemma AnswerNext(s: State, u: State, i: nat, peers: set<nat>, p: nat) returns (t: State)
    requires Inv(s) && CanReach(s, u) && Answered(s, u, i, peers)
    requires CanAnswerWrite(s, i, p) && p !in peers
    ensures CanReach(s, t) && Answered(s, t, i, peers + {p})
  {
    ReachKeepsInv(s, u);
    StillCanAnswer(s, u, i, peers, p);
    t := Answer(u, i, p);
    AnsweredThen(s, u, t, i, peers, p);
    Then(s, u, t);
  }

  /** The cluster can get to where these followers, and no others, have answered write i. */
  ghost predicate AllCanAnswer(s: State, i: nat, peers: set<nat>) {
    exists t :: CanReach(s, t) && Answered(s, t, i, peers)
  }

  lemma NobodyNeedsToAnswer(s: State, i: nat)
    requires 1 <= i <= |s.leader.writes|
    ensures AllCanAnswer(s, i, {})
  {
    Reachability.Stay(Next, s);
    NobodyAnswered(s, i);
  }

  lemma NextCanAnswer(s: State, i: nat, peers: set<nat>, p: nat)
    requires Inv(s) && CanAnswerWrite(s, i, p) && p !in peers && AllCanAnswer(s, i, peers)
    ensures AllCanAnswer(s, i, peers + {p})
  {
    var u :| CanReach(s, u) && Answered(s, u, i, peers);
    var t := AnswerNext(s, u, i, peers, p);
  }

  lemma {:induction false} AnyCanAnswer(s: State, i: nat, peers: set<nat>)
    requires Inv(s) && L.At(s.leader, i, L.Replicating) && forall p :: p in peers ==> CanAnswerWrite(s, i, p)
    ensures AllCanAnswer(s, i, peers)
    decreases |peers|
  {
    if peers == {} {
      NobodyNeedsToAnswer(s, i);
    } else {
      var p :| p in peers;
      AnyCanAnswer(s, i, peers - {p});
      NextCanAnswer(s, i, peers - {p}, p);
      assert peers - {p} + {p} == peers;
    }
  }

  lemma CommitEnabled(s: State, t: State, i: nat, peers: set<nat>)
    requires L.At(s.leader, i, L.Replicating) && Answered(s, t, i, peers) && |peers| >= L.Needed(|s.followers|)
    ensures Enabled(t, AtLeader(L.Commit(i)))
  {
    MoreIsLarger(peers, t.leader.writes[i - 1].acks);
  }

  lemma MoreIsLarger(a: set<nat>, b: set<nat>)
    requires a <= b
    ensures |a| <= |b|
  {
    assert b == a + (b - a);
  }

  /** Write i has committed, and besides its own handler only these followers have moved. */
  ghost predicate Decided(s: State, t: State, i: nat, peers: set<nat>) {
    && 1 <= i <= |s.leader.writes| == |t.leader.writes|
    && t.models == s.models && t.ops == s.ops && |t.followers| == |s.followers|
    && t.leader.log == s.leader.log && t.leader.applied == s.leader.applied
    && t.leader.commit == Max(s.leader.commit, LastIndex(s.leader.writes[i - 1].sent))
    && t.leader.writes == s.leader.writes[i - 1 := t.leader.writes[i - 1]]
    && t.leader.writes[i - 1].phase == L.Committed
    && (forall p :: 0 <= p < |s.followers| && p !in peers ==> t.followers[p] == s.followers[p])
    && (forall p :: 0 <= p < |s.followers| && p in peers ==>
          Served(s.followers[p], t.followers[p], s.leader.writes[i - 1].sent, i))
  }

  lemma DecidedState(s: State, i: nat, peers: set<nat>, answered: State, t: State)
    requires L.At(s.leader, i, L.Replicating)
    requires Answered(s, answered, i, peers) && Next(answered, AtLeader(L.Commit(i)), t)
    ensures Decided(s, t, i, peers)
  {
  }

  /** As many followers as are needed answer write i, and its handler commits. */
  lemma Decide(s: State, i: nat, peers: set<nat>) returns (t: State)
    requires Inv(s) && L.At(s.leader, i, L.Replicating) && |peers| >= L.Needed(|s.followers|)
    requires forall p :: p in peers ==> CanAnswerWrite(s, i, p)
    ensures CanReach(s, t) && Decided(s, t, i, peers)
  {
    AnyCanAnswer(s, i, peers);
    var answered :| CanReach(s, answered) && Answered(s, answered, i, peers);
    CommitEnabled(s, answered, i, peers);
    t := Do(answered, AtLeader(L.Commit(i)));
    One(answered, AtLeader(L.Commit(i)));
    Then(s, answered, t);
    DecidedState(s, i, peers, answered, t);
  }

  lemma SentState(s: State, i: nat)
    requires Enabled(s, Send(i))
    ensures var u := Do(s, Send(i));
            && SentIs(u, i, s.leader.log)
            && u.models == s.models && u.ops == s.ops && u.followers == s.followers
            && u.leader == s.leader.(writes := u.leader.writes)
            && |u.leader.writes| == |s.leader.writes| && L.At(u.leader, i, L.Replicating)
            && u.leader.writes == s.leader.writes[i - 1 := u.leader.writes[i - 1]]
            && L.NotYetSent(s.leader.writes[i - 1].phase)
  {
  }

  lemma SentCanAnswer(s: State, i: nat, p: nat)
    requires Inv(s) && Enabled(s, Send(i)) && CanServe(s, p, s.leader.log, i)
    ensures CanAnswerWrite(Do(s, Send(i)), i, p)
  {
    SentState(s, i);
  }

  /** Sends write i and lets the given followers decide it. */
  lemma SendAndDecide(s: State, i: nat, peers: set<nat>) returns (u: State, t: State)
    requires Inv(s) && Enabled(s, Send(i)) && |peers| >= L.Needed(|s.followers|)
    requires forall p :: p in peers ==> CanServe(s, p, s.leader.log, i)
    ensures u == Do(s, Send(i)) && CanReach(u, t)
    ensures L.At(u.leader, i, L.Replicating) && Decided(u, t, i, peers)
  {
    u := Do(s, Send(i));
    SentState(s, i);
    StepKeepsInv(s, Send(i));
    forall p | p in peers
      ensures CanAnswerWrite(u, i, p)
    {
      SentCanAnswer(s, i, p);
    }
    t := Decide(u, i, peers);
  }

  // ---------------------------------------------------------------- commit safety, exactly

  /** The followers for which everything applies that the request of write i, sent now, makes them list. */
  ghost function Servers(s: State, i: nat): (peers: set<nat>)
    ensures forall p: nat :: p in peers <==> p < |s.followers| && CanServe(s, p, s.leader.log, i)
  {
    set p: nat | p in FirstPeers(|s.followers|) && CanServe(s, p, s.leader.log, i)
  }

  /**
    From any state in which write i is about to be sent while some index below the last stored entry
    waits for its insert, and enough followers can serve it, the cluster can commit past that index
    while no node stores its entry.
   */
  lemma PendingInsertBreaksCommit(s: State, i: nat, j: nat) returns (t: State)
    requires Inv(s) && Enabled(s, Send(i)) && |Servers(s, i)| >= L.Needed(|s.followers|)
    requires 1 <= j <= LastIndex(s.leader.log) && L.At(s.leader, j, L.Reserved)
    ensures CanReach(Do(s, Send(i)), t) && Inv(t) && L.At(t.leader, i, L.Committed)
    ensures j <= LastIndex(s.leader.log) <= t.leader.commit
    ensures j !in t.leader.log && forall p :: 0 <= p < |t.followers| ==> j !in t.followers[p].log
  {
    var u: State;
    u, t := SendAndDecide(s, i, Servers(s, i));
    SentState(s, i);
    StepKeepsInv(s, Send(i));
    ReachKeepsInv(u, t);
    RequestIsHoleFreeIffNoPendingInsert(s, j);
    assert L.WriteOk(s.ops, |s.followers|, s.leader, j);
  }

  ghost predicate CommittedBy(t: State, i: nat) {
    1 <= i <= |t.leader.writes| && t.leader.writes[i - 1].committed
  }

  /** In whatever way the run goes on, if write i commits, a majority stores the whole prefix up to c. */
  ghost predicate CommitIsSafe(u: State, i: nat, c: nat) {
    forall t :: CanReach(u, t) && CommittedBy(t, i) ==> PrefixAtQuorum(t, t.leader.writes[i - 1].acks, c)
  }

  lemma GaplessCommitIsSafe(s: State, i: nat)
    requires Inv(s) && Enabled(s, Send(i)) && Gapless(s)
    ensures CommitIsSafe(Do(s, Send(i)), i, LastIndex(s.leader.log))
  {
    var u := Do(s, Send(i));
    SentState(s, i);
    StepKeepsInv(s, Send(i));
    GaplessIff(s);
    forall t | CanReach(u, t) && CommittedBy(t, i)
      ensures PrefixAtQuorum(t, t.leader.writes[i - 1].acks, LastIndex(s.leader.log))
    {
      ReachKeepsInv(u, t);
      ReachKeepsSent(u, t, i, s.leader.log);
      StoredAtQuorum(t, i);
    }
  }

  lemma StoredAtQuorum(t: State, i: nat)
    requires Inv(t) && CommittedBy(t, i) && HoleFree(t.leader.writes[i - 1].sent)
    ensures PrefixAtQuorum(t, t.leader.writes[i - 1].acks, LastIndex(t.leader.writes[i - 1].sent))
  {
    CommittedHasQuorum(t, i);
    assert L.WriteOk(t.ops, |t.followers|, t.leader, i);
    forall p | p in t.leader.writes[i - 1].acks
      ensures HasPrefix(t.followers[p].log, LastIndex(t.leader.writes[i - 1].sent))
    {
      AckStoresRequest(t, i, p);
    }
  }

  /** Only followers that can serve a write ever count for it. */
  lemma CountedIsServer(s: State, t: State, i: nat, p: nat)
    requires Inv(s) && Enabled(s, Send(i)) && CanReach(Do(s, Send(i)), t)
    requires i <= |t.leader.writes| && p in t.leader.writes[i - 1].acks
    ensures p in Servers(s, i)
  {
    var u := Do(s, Send(i));
    SentState(s, i);
    StepKeepsInv(s, Send(i));
    ReachKeepsSent(u, t, i, s.leader.log);
    One(s, Send(i));
    Then(s, u, t);
    AnswerCovers(s, t, i, p);
    var merged, commit := Merge(s.followers[p].log, s.leader.log), Max(s.followers[p].commit, i);
    forall c: nat | c <= commit && c <= |s.ops| && HasPrefix(merged, c)
      ensures Replay(s.models, s.ops[..c]).Ok?
    {
      assert HasPrefix(s.leader.log, c);
      AnsweredPrefixApplies(s, t, p, c);
    }
  }

  lemma CommittedWasNeeded(s: State, t: State, i: nat)
    requires Inv(s) && CanReach(s, t) && CommittedBy(t, i)
    ensures |t.leader.writes[i - 1].acks| >= L.Needed(|s.followers|)
  {
    ReachIsLater(s, t);
    assert L.WriteOk(t.ops, |t.followers|, t.leader, i);
  }

  lemma TooFewServersNeverCommit(s: State, t: State, i: nat)
    requires Inv(s) && Enabled(s, Send(i)) && CanReach(Do(s, Send(i)), t)
    requires |Servers(s, i)| < L.Needed(|s.followers|)
    ensures !CommittedBy(t, i)
  {
    if CommittedBy(t, i) {
      One(s, Send(i));
      Then(s, Do(s, Send(i)), t);
      CommittedWasNeeded(s, t, i);
      AllCountedAreServers(s, t, i);
      MoreIsLarger(t.leader.writes[i - 1].acks, Servers(s, i));
    }
  }

  lemma AllCountedAreServers(s: State, t: State, i: nat)
    requires Inv(s) && Enabled(s, Send(i)) && CanReach(Do(s, Send(i)), t) && i <= |t.leader.writes|
    ensures 1 <= i && t.leader.writes[i - 1].acks <= Servers(s, i)
  {
    SentState(s, i);
    forall p | p in t.leader.writes[i - 1].acks
      ensures p in Servers(s, i)
    {
      CountedIsServer(s, t, i, p);
    }
  }

  /**
    Exactly when a send is safe to commit, in every reachable state and for every history: whatever
    happens afterwards, a committed write i has its request's whole prefix stored at a majority, if and
    only if no insert below the last stored entry was pending when the request was built, or too few
    followers can apply what the request makes them list, so that write i never commits.
   */
  lemma CommitIsSafeIff(s: State, i: nat)
    requires Inv(s) && Enabled(s, Send(i))
    ensures CommitIsSafe(Do(s, Send(i)), i, LastIndex(s.leader.log)) <==>
            Gapless(s) || |Servers(s, i)| < L.Needed(|s.followers|)
  {
    if Gapless(s) {
      GaplessCommitIsSafe(s, i);
    } else if |Servers(s, i)| < L.Needed(|s.followers|) {
      forall t | CanReach(Do(s, Send(i)), t)
        ensures !CommittedBy(t, i)
      {
        TooFewServersNeverCommit(s, t, i);
      }
    } else {
      var j :| 1 <= j <= LastIndex(s.leader.log) && L.At(s.leader, j, L.Reserved);
      var t := PendingInsertBreaksCommit(s, i, j);
      WriteCommitted(t, i);
      assert !HasPrefix(t.leader.log, LastIndex(s.leader.log));
    }
  }

  lemma WriteCommitted(t: State, i: nat)
    requires Inv(t) && L.At(t.leader, i, L.Committed)
    ensures CommittedBy(t, i)
  {
    assert L.WriteOk(t.ops, |t.followers|, t.leader, i);
  }
}
