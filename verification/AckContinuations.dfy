/**
  How the cluster can bring a committed write to its acknowledgement, and what that shows: exactly when
  a write can be acknowledged while no majority has applied it.
 */
module AckContinuations {
  import opened Wrappers
  import opened Crud
  import opened ReplicatedLog
  import opened Cluster
  import opened Safety
  import opened CleanRuns
  import opened ClusterReach
  import opened Answers
  import opened Continuations
  import Reachability
  import Rounds = FollowerRounds
  import L = Leader
  import F = Follower

  /** From s to t only writes up to k and the given followers have moved, and no one past index k. */
  ghost predicate Calm(s: State, t: State, k: nat, peers: set<nat>) {
    && t.models == s.models && t.ops == s.ops
    && |t.followers| == |s.followers| && |t.leader.writes| == |s.leader.writes|
    && s.leader.commit <= t.leader.commit && s.leader.applied <= t.leader.applied
    && (forall y :: y in t.leader.log ==> y in s.leader.log || 1 <= y <= k)
    && (forall x :: k <= x < |s.leader.writes| ==> t.leader.writes[x] == s.leader.writes[x])
    && (forall p :: 0 <= p < |s.followers| && p !in peers ==> t.followers[p] == s.followers[p])
    && (forall p :: 0 <= p < |s.followers| ==> t.followers[p].commit <= Max(s.followers[p].commit, k))
  }

  lemma CalmThen(s: State, t: State, u: State, k: nat, m: nat, peers: set<nat>)
    requires Calm(s, t, k, peers) && Calm(t, u, m, peers) && k <= m
    ensures Calm(s, u, m, peers)
  {
  }

  ghost predicate Moved(s: State, t: State, k: nat, peers: set<nat>) {
    CanReach(s, t) && Calm(s, t, k, peers)
  }

  lemma MovedThen(s: State, t: State, u: State, k: nat, m: nat, peers: set<nat>)
    requires Moved(s, t, k, peers) && Moved(t, u, m, peers) && k <= m
    ensures Moved(s, u, m, peers)
  {
    Then(s, t, u);
    CalmThen(s, t, u, k, m, peers);
  }

  lemma StaysCalm(s: State, k: nat, peers: set<nat>)
    ensures Moved(s, s, k, peers)
  {
    Reachability.Stay(Next, s);
  }

  // ---------------------------------------------------------------- followers that can go all the way

  /** The leader's log once every index up to i is inserted. */
  ghost function Filled(s: State, i: nat): (log: Log)
    requires i <= |s.ops|
    ensures forall y :: y in log <==> y in s.leader.log || 1 <= y <= i
  {
    if i == 0 then s.leader.log else Filled(s, i - 1)[i := s.ops[i - 1]]
  }

  /** Everything applies that the follower has to list through i, and behind it up to its own commit index. */
  ghost predicate CanFinish(s: State, i: nat, p: nat) {
    && p < |s.followers|
    && i <= |s.ops|
    && Rounds.ListedApply(s.models, s.ops, Filled(s, i), Max(s.followers[p].commit, i))
  }

  lemma CalmKeepsFinisher(s: State, t: State, k: nat, peers: set<nat>, i: nat, p: nat)
    requires Calm(s, t, k, peers) && k <= i <= |s.ops| && CanFinish(s, i, p)
    ensures CanFinish(t, i, p)
  {
    Rounds.LessIsListed(s.models, s.ops, Filled(s, i), Max(s.followers[p].commit, i),
                        Filled(t, i), Max(t.followers[p].commit, i));
  }

  lemma FinisherAnswers(s: State, k: nat, i: nat, p: nat)
    requires Inv(s) && L.At(s.leader, k, L.Replicating) && k <= i && CanFinish(s, i, p)
    ensures CanAnswerWrite(s, k, p)
  {
    var f, sent := s.followers[p], s.leader.writes[k - 1].sent;
    assert L.WriteOk(s.ops, |s.followers|, s.leader, k);
    assert Merge(f.log, sent).Keys <= s.leader.log.Keys <= Filled(s, i).Keys;
    Rounds.LessIsListed(s.models, s.ops, Filled(s, i), Max(f.commit, i), Merge(f.log, sent), Max(f.commit, k));
  }

  lemma PrefixApplies(models: seq<Model>, ops: seq<CrudOp>, i: nat, c: nat)
    requires c <= i <= |ops| && Replay(models, ops[..i]).Ok?
    ensures Replay(models, ops[..c]).Ok?
  {
    ReplayPrefixOk(models, ops[..i], c);
    assert ops[..i][..c] == ops[..c];
  }

  /** Enough followers can go all the way through i. */
  ghost predicate Ready(s: State, i: nat, peers: set<nat>) {
    && i <= |s.ops|
    && |peers| >= L.Needed(|s.followers|)
    && (forall p :: p in peers ==> CanFinish(s, i, p))
    && Replay(s.models, s.ops[..i]).Ok?
  }

  lemma CalmKeepsReady(s: State, t: State, k: nat, peers: set<nat>, i: nat)
    requires Calm(s, t, k, peers) && k <= i && Ready(s, i, peers)
    ensures Ready(t, i, peers)
  {
    forall p | p in peers
      ensures CanFinish(t, i, p)
    {
      CalmKeepsFinisher(s, t, k, peers, i, p);
    }
  }

  predicate OfWrite(step: Step, k: nat) {
    k != 0 && (step.AtLeader? || step.Send?) && L.Actor(LeaderPart(step).value) == k
  }

  /** A step of write k's handler. */
  lemma Act(s: State, step: Step, k: nat, peers: set<nat>) returns (t: State)
    requires Enabled(s, step) && OfWrite(step, k)
    ensures t == Do(s, step) && Moved(s, t, k, peers)
  {
    t := Do(s, step);
    One(s, step);
  }

  // ---------------------------------------------------------------- a write commits

  lemma Insert(s: State, k: nat, peers: set<nat>) returns (t: State)
    requires Inv(s) && L.At(s.leader, k, L.Reserved)
    ensures Moved(s, t, k, peers) && L.At(t.leader, k, L.Inserted)
  {
    t := Act(s, AtLeader(L.Insert(k)), k, peers);
  }

  lemma SendIt(s: State, k: nat, peers: set<nat>) returns (t: State)
    requires L.At(s.leader, k, L.Inserted) || L.At(s.leader, k, L.Queued)
    ensures Moved(s, t, k, peers) && L.At(t.leader, k, L.Replicating)
  {
    t := Act(s, Send(k), k, peers);
  }

  lemma DecideIt(s: State, k: nat, i: nat, peers: set<nat>) returns (t: State)
    requires Inv(s) && L.At(s.leader, k, L.Replicating) && k <= i && Ready(s, i, peers)
    ensures Moved(s, t, k, peers) && L.At(t.leader, k, L.Committed)
  {
    forall p | p in peers
      ensures CanAnswerWrite(s, k, p)
    {
      FinisherAnswers(s, k, i, p);
    }
    t := Decide(s, k, peers);
    DecidedIsCalm(s, t, k, peers);
  }

  lemma DecidedIsCalm(s: State, t: State, k: nat, peers: set<nat>)
    requires Decided(s, t, k, peers)
    ensures Calm(s, t, k, peers)
  {
  }

  lemma InsertIfReserved(s: State, k: nat, peers: set<nat>) returns (t: State)
    requires Inv(s) && 1 <= k <= |s.leader.writes| && !L.At(s.leader, k, L.Failed)
    ensures Moved(s, t, k, peers) && !L.At(t.leader, k, L.Reserved) && !L.At(t.leader, k, L.Failed)
  {
    if L.At(s.leader, k, L.Reserved) {
      t := Insert(s, k, peers);
    } else {
      t := s;
      StaysCalm(s, k, peers);
    }
  }

  lemma SendIfUnsent(s: State, k: nat, peers: set<nat>) returns (t: State)
    requires 1 <= k <= |s.leader.writes| && !L.At(s.leader, k, L.Reserved) && !L.At(s.leader, k, L.Failed)
    ensures Moved(s, t, k, peers)
    ensures L.At(t.leader, k, L.Replicating) || L.PastCommit(t.leader.writes[k - 1].phase)
  {
    if L.At(s.leader, k, L.Inserted) || L.At(s.leader, k, L.Queued) {
      t := SendIt(s, k, peers);
    } else {
      t := s;
      StaysCalm(s, k, peers);
    }
  }

  /** A write that has not failed can be brought to its commit. */
  lemma ToCommitted(s: State, k: nat, i: nat, peers: set<nat>) returns (t: State)
    requires Inv(s) && 1 <= k <= |s.leader.writes| && !L.At(s.leader, k, L.Failed) && k <= i && Ready(s, i, peers)
    ensures Moved(s, t, k, peers) && |t.leader.writes| >= k && L.PastCommit(t.leader.writes[k - 1].phase)
  {
    var inserted := InsertIfReserved(s, k, peers);
    t := SendIfUnsent(inserted, k, peers);
    MovedThen(s, inserted, t, k, k, peers);
    if L.At(t.leader, k, L.Replicating) {
      ReachKeepsInv(s, t);
      CalmKeepsReady(s, t, k, peers, i);
      var u := DecideIt(t, k, i, peers);
      MovedThen(s, t, u, k, k, peers);
      t := u;
    }
  }

  // ---------------------------------------------------------------- a committed write is acknowledged

  predicate OnItsWay(p: L.Phase) {
    L.PastCommit(p) && !p.Acknowledged?
  }

  function NextAction(p: L.Phase, k: nat): L.Action
    requires OnItsWay(p)
  {
    match p
    case Committed => L.SeeCommit(k)
    case CommitSeen => L.SeeApplied(k)
    case PriorApplied => L.Lock(k)
    case Applying => L.ApplyOk(k)
    case Marking => L.Mark(k)
  }

  function Distance(p: L.Phase): nat {
    match p
    case Committed => 5
    case CommitSeen => 4
    case PriorApplied => 3
    case Applying => 2
    case Marking => 1
    case _ => 0
  }

  lemma LockIsFree(s: State, k: nat)
    requires Inv(s) && L.At(s.leader, k, L.PriorApplied)
    ensures s.leader.lock == None
  {
    var holder := if s.leader.lock.Some? then s.leader.lock.value else k;
    assert L.TurnOk(s.leader, k) && L.TurnOk(s.leader, holder);
  }

  lemma NextOperationApplies(models: seq<Model>, ops: seq<CrudOp>, k: nat, stores: Stores)
    requires 1 <= k <= |ops| && Replay(models, ops[..k]).Ok? && Replay(models, ops[..k - 1]) == Ok(stores)
    ensures |stores| == |models| && ApplyCrud(models, stores, ops[k - 1]).Ok?
  {
    ReplayNext(models, ops, k - 1);
  }

  ghost predicate LeaderCanApply(s: State, k: nat) {
    k <= |s.ops| && Replay(s.models, s.ops[..k]).Ok?
  }

  lemma EntryApplies(s: State, k: nat)
    requires Inv(s) && LeaderCanApply(s, k) && L.At(s.leader, k, L.Applying)
    ensures LeaderEnabled(s, L.ApplyOk(k))
  {
    assert L.TurnOk(s.leader, k);
    assert L.Reflected(s.leader) == k - 1;
    NextOperationApplies(s.models, s.ops, k, s.leader.stores);
  }

  /** The handler of entry k is past its commit, and everything before it is committed and applied. */
  ghost predicate AtHand(s: State, k: nat) {
    && 1 <= k <= |s.leader.writes|
    && L.PastCommit(s.leader.writes[k - 1].phase)
    && s.leader.commit >= k - 1 && s.leader.applied >= k - 1
    && LeaderCanApply(s, k)
  }

  lemma NextEnabled(s: State, k: nat)
    requires Inv(s) && AtHand(s, k) && OnItsWay(s.leader.writes[k - 1].phase)
    ensures Enabled(s, AtLeader(NextAction(s.leader.writes[k - 1].phase, k)))
  {
    if L.At(s.leader, k, L.PriorApplied) {
      LockIsFree(s, k);
    } else if L.At(s.leader, k, L.Applying) {
      EntryApplies(s, k);
    }
  }

  /** The handler's next step brings it nearer, and takes nothing back. */
  lemma NextEffect(models: seq<Model>, ops: seq<CrudOp>, followers: nat, l: L.Node, k: nat)
    requires 1 <= k <= |l.writes| && OnItsWay(l.writes[k - 1].phase)
    requires L.Enabled(models, ops, followers, l, NextAction(l.writes[k - 1].phase, k))
    ensures var m := L.Do(models, ops, followers, l, NextAction(l.writes[k - 1].phase, k));
            && |m.writes| == |l.writes| && m.commit == l.commit && m.applied >= l.applied
            && L.PastCommit(m.writes[k - 1].phase)
            && Distance(m.writes[k - 1].phase) < Distance(l.writes[k - 1].phase)
  {
  }

  lemma AdvanceEffect(s: State, k: nat)
    requires AtHand(s, k) && OnItsWay(s.leader.writes[k - 1].phase)
    requires Enabled(s, AtLeader(NextAction(s.leader.writes[k - 1].phase, k)))
    ensures var t := Do(s, AtLeader(NextAction(s.leader.writes[k - 1].phase, k)));
            && t.followers == s.followers && AtHand(t, k)
            && Distance(t.leader.writes[k - 1].phase) < Distance(s.leader.writes[k - 1].phase)
  {
    NextEffect(s.models, s.ops, |s.followers|, s.leader, k);
  }

  lemma Advance(s: State, k: nat, peers: set<nat>) returns (t: State)
    requires Inv(s) && AtHand(s, k) && OnItsWay(s.leader.writes[k - 1].phase)
    ensures Moved(s, t, k, peers) && t.followers == s.followers && AtHand(t, k)
    ensures Distance(t.leader.writes[k - 1].phase) < Distance(s.leader.writes[k - 1].phase)
  {
    NextEnabled(s, k);
    AdvanceEffect(s, k);
    t := Act(s, AtLeader(NextAction(s.leader.writes[k - 1].phase, k)), k, peers);
  }

  /** A committed write whose predecessors are applied can be brought to its acknowledgement. */
  lemma {:induction false} ToAcknowledged(s: State, k: nat, peers: set<nat>) returns (t: State)
    requires Inv(s) && AtHand(s, k)
    ensures Moved(s, t, k, peers) && t.followers == s.followers && L.At(t.leader, k, L.Acknowledged)
    decreases Distance(s.leader.writes[k - 1].phase)
  {
    if L.At(s.leader, k, L.Acknowledged) {
      t := s;
      StaysCalm(s, k, peers);
    } else {
      var u := Advance(s, k, peers);
      ReachKeepsInv(s, u);
      t := ToAcknowledged(u, k, peers);
      MovedThen(s, u, t, k, k, peers);
    }
  }

  lemma AcknowledgedIsApplied(s: State, k: nat)
    requires Inv(s) && L.At(s.leader, k, L.Acknowledged)
    ensures s.leader.applied >= k
  {
    assert L.TurnOk(s.leader, k);
  }

  /** All writes up to k can be brought to their acknowledgement, one after the other. */
  lemma {:induction false} DriveAll(s: State, k: nat, i: nat, peers: set<nat>) returns (t: State)
    requires Inv(s) && k <= |s.leader.writes| && k <= s.leader.commit && k <= i && Ready(s, i, peers)
    requires forall x :: 1 <= x <= k ==> !L.At(s.leader, x, L.Failed)
    ensures Moved(s, t, k, peers) && t.leader.applied >= k
    decreases k
  {
    if k == 0 {
      t := s;
      StaysCalm(s, 0, peers);
    } else {
      var u := DriveAll(s, k - 1, i, peers);
      t := DriveNext(s, u, k, i, peers);
    }
  }

  lemma StillReady(s: State, u: State, k: nat, i: nat, peers: set<nat>)
    requires Inv(s) && 1 <= k <= |s.leader.writes| && k <= i && Ready(s, i, peers)
    requires !L.At(s.leader, k, L.Failed) && Moved(s, u, k - 1, peers)
    ensures Inv(u) && Ready(u, i, peers) && k <= |u.leader.writes| && !L.At(u.leader, k, L.Failed)
  {
    ReachKeepsInv(s, u);
    CalmKeepsReady(s, u, k - 1, peers, i);
    assert u.leader.writes[k - 1] == s.leader.writes[k - 1];
  }

  lemma CommitNext(s: State, u: State, k: nat, i: nat, peers: set<nat>) returns (v: State)
    requires Inv(s) && 1 <= k <= |s.leader.writes| && k <= s.leader.commit && k <= i && Ready(s, i, peers)
    requires !L.At(s.leader, k, L.Failed) && Moved(s, u, k - 1, peers) && u.leader.applied >= k - 1
    ensures Moved(s, v, k, peers) && AtHand(v, k)
  {
    StillReady(s, u, k, i, peers);
    v := ToCommitted(u, k, i, peers);
    CommittedIsAtHand(s, u, v, k, i, peers);
    MovedThen(s, u, v, k - 1, k, peers);
  }

  lemma CommittedIsAtHand(s: State, u: State, v: State, k: nat, i: nat, peers: set<nat>)
    requires 1 <= k <= |s.leader.writes| && k <= s.leader.commit && k <= i && Ready(s, i, peers)
    requires Calm(s, u, k - 1, peers) && u.leader.applied >= k - 1
    requires Calm(u, v, k, peers) && L.PastCommit(v.leader.writes[k - 1].phase)
    ensures AtHand(v, k)
  {
    PrefixApplies(s.models, s.ops, i, k);
  }

  lemma DriveNext(s: State, u: State, k: nat, i: nat, peers: set<nat>) returns (t: State)
    requires Inv(s) && 1 <= k <= |s.leader.writes| && k <= s.leader.commit && k <= i && Ready(s, i, peers)
    requires !L.At(s.leader, k, L.Failed) && Moved(s, u, k - 1, peers) && u.leader.applied >= k - 1
    ensures Moved(s, t, k, peers) && t.leader.applied >= k
  {
    var v := CommitNext(s, u, k, i, peers);
    ReachKeepsInv(s, v);
    t := ToAcknowledged(v, k, peers);
    MovedThen(s, v, t, k, k, peers);
    ReachKeepsInv(s, t);
    AcknowledgedIsApplied(t, k);
  }

  lemma StillAtHand(s: State, t: State, i: nat, peers: set<nat>)
    requires i <= s.leader.commit && L.At(s.leader, i, L.Committed) && Ready(s, i, peers)
    requires Calm(s, t, i - 1, peers) && t.leader.applied >= i - 1
    ensures AtHand(t, i)
  {
    assert t.leader.writes[i - 1] == s.leader.writes[i - 1];
  }

  /** Acknowledges everything before i, and then i, which has committed. */
  lemma DriveTo(s: State, i: nat, peers: set<nat>) returns (driven: State, t: State)
    requires Inv(s) && i <= s.leader.commit && L.At(s.leader, i, L.Committed) && Ready(s, i, peers)
    requires forall x :: 1 <= x < i ==> !L.At(s.leader, x, L.Failed)
    ensures Calm(s, driven, i - 1, peers)
    ensures CanReach(s, t) && t.followers == driven.followers && L.At(t.leader, i, L.Acknowledged)
  {
    driven := DriveAll(s, i - 1, i, peers);
    StillAtHand(s, driven, i, peers);
    ReachKeepsInv(s, driven);
    t := ToAcknowledged(driven, i, peers);
    Then(s, driven, t);
  }
}
