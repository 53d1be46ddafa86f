/**
  One leader, any number of followers and a network, within one term. Requests stay in `net` once
  sent, so they can be delivered late, out of order, several times or never; answers are read off
  the follower's finished handler, or never.
 */
module Cluster {
  import opened Wrappers
  import opened Crud
  import opened ReplicatedLog
  import L = Leader
  import F = Follower

  /** `ops` is a history variable: the operation of every index the leader ever handed out. */
  datatype State = State(
    models: seq<Model>,
    ops: seq<CrudOp>,
    leader: L.Node,
    followers: seq<F.Node>,
    net: set<F.Request>)

  datatype Step =
    | AtLeader(action: L.Action)
    | Send(i: nat)
    | Notify(i: nat)
    | CatchUp(peer: nat, commit: nat)
    | TakeBatch
    | Collect(i: nat, peer: nat, h: nat)
    | Record(peer: nat, h: nat, index: nat)
    | AtFollower(peer: nat, step: F.Action)

  function Init(models: seq<Model>, followers: nat): State {
    State(models, [], L.Fresh(models, followers), seq(followers, _ => F.Fresh(models)), {})
  }

  predicate Finished(s: State, peer: nat, h: nat) {
    && peer < |s.followers|
    && h < |s.followers[peer].handlers|
    && s.followers[peer].handlers[h].phase.Done?
  }

  predicate Deliverable(r: F.Request, peer: nat) {
    r.source.CatchUp? ==> r.source.peer == peer
  }

  /** What the leader records as a follower's last replicated index after a successful exchange. */
  ghost predicate Recorded(answer: F.Handler, index: nat) {
    match answer.request.source
    case FromWrite(_) => answer.phase.Done? && answer.phase.success && index == answer.phase.lastIndex
    case CatchUp(_) => index == LastIndex(answer.request.entries)
    case Batch => index in answer.request.entries
    case Notify => false
  }

  /** The leader action a step performs, if it performs one. */
  function LeaderPart(step: Step): Option<L.Action> {
    match step
    case AtLeader(a) => Some(a)
    case Send(i) => Some(L.Send(i))
    case TakeBatch => Some(L.TakeBatch)
    case Collect(i, peer, _) => Some(L.Collect(i, peer))
    case Record(peer, _, index) => Some(L.Record(peer, index))
    case _ => None
  }

  ghost predicate LeaderEnabled(s: State, a: L.Action) {
    L.Enabled(s.models, s.ops, |s.followers|, s.leader, a)
  }

  ghost predicate Enabled(s: State, step: Step) {
    && (LeaderPart(step).Some? ==> LeaderEnabled(s, LeaderPart(step).value))
    && match step
       case AtLeader(a) => !a.Send? && !a.TakeBatch? && !a.Collect? && !a.Record?
       case Send(_) => true
       case TakeBatch => s.leader.queue != map[]
       case Notify(i) => 1 <= i <= |s.leader.writes| && s.leader.writes[i - 1].committed
       case CatchUp(peer, commit) =>
         && peer < |s.followers| && peer < |s.leader.known|
         && s.leader.known[peer] < commit <= s.leader.commit
       case Collect(i, peer, h) =>
         && Finished(s, peer, h)
         && s.followers[peer].handlers[h].phase.success
         && s.followers[peer].handlers[h].request.source == F.FromWrite(i)
       case Record(peer, h, index) =>
         Finished(s, peer, h) && Recorded(s.followers[peer].handlers[h], index)
       case AtFollower(peer, a) =>
         && peer < |s.followers|
         && F.Enabled(s.models, s.followers[peer], a)
         && (a.Receive? ==> a.request in s.net && Deliverable(a.request, peer))
  }

  /** The request a step puts on the network. */
  ghost function RequestOf(s: State, step: Step): Option<F.Request>
    requires Enabled(s, step)
  {
    match step
    case Send(i) => Some(F.Request(F.FromWrite(i), s.leader.log, i))
    case Notify(i) => Some(F.Request(F.Notify, s.leader.log, LastIndex(s.leader.writes[i - 1].sent)))
    case CatchUp(peer, commit) =>
      Some(F.Request(F.CatchUp(peer), EntriesFrom(s.leader.log, s.leader.known[peer] + 1), commit))
    case TakeBatch => Some(F.Request(F.Batch, s.leader.queue, LastIndex(s.leader.queue)))
    case _ => None
  }

  ghost function Emitted(s: State, step: Step): set<F.Request>
    requires Enabled(s, step)
  {
    if RequestOf(s, step).Some? then {RequestOf(s, step).value} else {}
  }

  ghost function Do(s: State, step: Step): State
    requires Enabled(s, step)
  {
    if step.AtFollower? then
      s.(followers := s.followers[step.peer := F.Do(s.models, s.followers[step.peer], step.step)])
    else
      var sent := s.(net := s.net + Emitted(s, step));
      if LeaderPart(step).None? then sent
      else
        var a := LeaderPart(step).value;
        sent.(leader := L.Do(s.models, s.ops, |s.followers|, s.leader, a), ops := L.OpsAfter(s.ops, a))
  }

  // ---------------------------------------------------------------- invariant

  /** Follower `peer` has answered success to write i's own request. */
  ghost predicate Acked(s: State, i: nat, peer: nat)
    requires 1 <= i <= |s.leader.writes|
  {
    && peer < |s.followers|
    && exists h :: AckedBy(s, i, peer, h)
  }

  ghost predicate AckedBy(s: State, i: nat, peer: nat, h: nat)
    requires 1 <= i <= |s.leader.writes| && peer < |s.followers|
  {
    && h < |s.followers[peer].handlers|
    && s.followers[peer].handlers[h].phase.Done?
    && s.followers[peer].handlers[h].phase.success
    && s.followers[peer].handlers[h].request == F.Request(F.FromWrite(i), s.leader.writes[i - 1].sent, i)
  }

  ghost predicate InNet(s: State, r: F.Request) {
    && F.RequestOk(s.ops, r)
    && r.entries.Keys <= s.leader.log.Keys
    && (r.source.FromWrite? ==>
          var i := r.source.index;
          && 1 <= i <= |s.leader.writes|
          && !L.NotYetSent(s.leader.writes[i - 1].phase)
          && r.entries == s.leader.writes[i - 1].sent
          && r.leaderCommit == i)
    && (r.source.CatchUp? ==> r.leaderCommit <= LastIndex(r.entries))
  }

  ghost predicate NetOk(s: State) {
    forall r :: r in s.net ==> InNet(s, r)
  }

  ghost predicate HandlersFromNet(s: State) {
    forall p, h :: 0 <= p < |s.followers| && 0 <= h < |s.followers[p].handlers| ==>
      && s.followers[p].handlers[h].request in s.net
      && Deliverable(s.followers[p].handlers[h].request, p)
  }

  ghost predicate AcksOk(s: State) {
    forall i, p :: 1 <= i <= |s.leader.writes| && p in s.leader.writes[i - 1].acks ==> Acked(s, i, p)
  }

  ghost predicate KnownOk(s: State) {
    && |s.leader.known| == |s.followers|
    && forall p :: 0 <= p < |s.followers| ==> s.leader.known[p] <= LastIndex(s.followers[p].log)
  }

  ghost predicate NodesOk(s: State) {
    && L.Inv(s.models, s.ops, |s.followers|, s.leader)
    && forall p :: 0 <= p < |s.followers| ==> F.Inv(s.models, s.ops, s.followers[p])
  }

  /** The request of a write, and all it has sent, stays on the network. */
  ghost predicate SentInNet(s: State) {
    forall i :: 1 <= i <= |s.leader.writes| ==> WriteInNet(s, i)
  }

  ghost predicate WriteInNet(s: State, i: nat)
    requires 1 <= i <= |s.leader.writes|
  {
    var w := s.leader.writes[i - 1];
    !L.NotYetSent(w.phase) ==> F.Request(F.FromWrite(i), w.sent, i) in s.net
  }

  /** No follower stores an index the leader does not store. */
  ghost predicate WithinLeader(s: State) {
    forall p :: 0 <= p < |s.followers| ==> s.followers[p].log.Keys <= s.leader.log.Keys
  }

  ghost predicate Inv(s: State) {
    NodesOk(s) && NetOk(s) && HandlersFromNet(s) && AcksOk(s) && KnownOk(s) && WithinLeader(s) && SentInNet(s)
  }

  lemma InitInv(models: seq<Model>, followers: nat)
    ensures Inv(Init(models, followers))
  {
    L.FreshInv(models, followers);
    F.FreshInv(models, []);
  }

  lemma CommitWithinHistory(s: State)
    requires NodesOk(s)
    ensures s.leader.commit <= |s.ops|
  {
    if s.leader.commit != 0 {
      var i :| L.CommitSource(s.leader, i);
      assert L.WriteOk(s.ops, |s.followers|, s.leader, i);
    }
  }

  /** What is committed is stored, so a catch-up that starts before it reaches it. */
  lemma CatchUpReachesCommit(s: State, peer: nat, commit: nat)
    requires Inv(s) && Enabled(s, CatchUp(peer, commit))
    ensures commit <= LastIndex(EntriesFrom(s.leader.log, s.leader.known[peer] + 1))
  {
    var i: nat :| L.CommitSource(s.leader, i);
    assert L.WriteOk(s.ops, |s.followers|, s.leader, i);
    assert s.leader.commit in EntriesFrom(s.leader.log, s.leader.known[peer] + 1);
  }

  lemma NotifyTellsCommitted(s: State, i: nat)
    requires Inv(s) && Enabled(s, Notify(i))
    ensures LastIndex(s.leader.writes[i - 1].sent) <= |s.ops|
  {
    assert L.WriteOk(s.ops, |s.followers|, s.leader, i);
  }

  /** The request agrees with the history, is part of the leader's log, and a catch-up reaches its commit index. */
  ghost predicate Sendable(s: State, r: F.Request) {
    && F.RequestOk(s.ops, r) && r.entries.Keys <= s.leader.log.Keys
    && (r.source.CatchUp? ==> r.leaderCommit <= LastIndex(r.entries))
  }

  lemma CatchUpOk(s: State, step: Step)
    requires Inv(s) && Enabled(s, step) && step.CatchUp?
    ensures Sendable(s, RequestOf(s, step).value)
  {
    CommitWithinHistory(s);
    CatchUpReachesCommit(s, step.peer, step.commit);
  }

  lemma NotifyOk(s: State, step: Step)
    requires Inv(s) && Enabled(s, step) && step.Notify?
    ensures Sendable(s, RequestOf(s, step).value)
  {
    NotifyTellsCommitted(s, step.i);
  }

  lemma SendOk(s: State, step: Step)
    requires Inv(s) && Enabled(s, step) && (step.Send? || step.TakeBatch?)
    ensures Sendable(s, RequestOf(s, step).value)
  {
  }

  lemma EmittedOk(s: State, step: Step)
    requires Inv(s) && Enabled(s, step)
    ensures forall r :: r in Emitted(s, step) ==> Sendable(s, r)
  {
    if step.CatchUp? {
      CatchUpOk(s, step);
    } else if step.Notify? {
      NotifyOk(s, step);
    } else if step.Send? || step.TakeBatch? {
      SendOk(s, step);
    }
  }

  /** What a leader step leaves alone, and what it adds. */
  ghost predicate LeaderEffect(s: State, t: State, step: Step)
    requires Enabled(s, step)
  {
    && t.models == s.models
    && t.followers == s.followers
    && t.net == s.net + Emitted(s, step)
    && s.ops <= t.ops
    && |s.leader.writes| <= |t.leader.writes|
    && s.leader.log.Keys <= t.leader.log.Keys
    && (LeaderPart(step).None? ==> t.leader == s.leader)
    && (LeaderPart(step).Some? ==> L.SentKept(s.leader, t.leader, LeaderPart(step).value))
    && (forall k :: |s.leader.writes| <= k < |t.leader.writes| ==> t.leader.writes[k].acks == {})
  }

  lemma LeaderStepEffect(s: State, step: Step)
    requires Enabled(s, step) && !step.AtFollower?
    ensures LeaderEffect(s, Do(s, step), step)
  {
    if LeaderPart(step).Some? {
      L.StepKeepsSent(s.models, s.ops, |s.followers|, s.leader, LeaderPart(step).value);
    }
  }

  lemma LeaderStepKeepsNodes(s: State, step: Step)
    requires NodesOk(s) && Enabled(s, step) && !step.AtFollower?
    ensures NodesOk(Do(s, step))
  {
    var t := Do(s, step);
    if LeaderPart(step).Some? {
      var a := LeaderPart(step).value;
      L.StepKeepsInv(s.models, s.ops, |s.followers|, s.leader, a);
      if a.Reserve? {
        forall p | 0 <= p < |s.followers|
          ensures F.Inv(t.models, t.ops, t.followers[p])
        {
          F.InvExtends(s.models, s.ops, a.op, s.followers[p]);
        }
      }
    }
  }

  lemma SendIsInNet(s: State, step: Step)
    requires Inv(s) && Enabled(s, step) && step.Send?
    ensures forall r :: r in Emitted(s, step) ==> InNet(Do(s, step), r)
  {
  }

  lemma NetKept(s: State, t: State, step: Step)
    requires NetOk(s) && Enabled(s, step) && LeaderEffect(s, t, step)
    requires forall r :: r in Emitted(s, step) ==> InNet(t, r)
    ensures NetOk(t)
  {
    forall r | r in s.net
      ensures InNet(t, r)
    {
      assert InNet(s, r);
      if r.source.FromWrite? && LeaderPart(step).Some? {
        assert L.WriteKept(s.leader, t.leader, LeaderPart(step).value, r.source.index);
      }
    }
  }

  lemma SendPutsRequestInNet(s: State, step: Step)
    requires Enabled(s, step) && step.Send?
    ensures 1 <= step.i <= |Do(s, step).leader.writes| && WriteInNet(Do(s, step), step.i)
  {
  }

  lemma LeaderStepKeepsSentInNet(s: State, step: Step)
    requires Inv(s) && Enabled(s, step) && !step.AtFollower?
    ensures SentInNet(Do(s, step))
  {
    var t := Do(s, step);
    LeaderStepEffect(s, step);
    forall i | 1 <= i <= |t.leader.writes|
      ensures WriteInNet(t, i)
    {
      if step == Send(i) {
        SendPutsRequestInNet(s, step);
      } else if !L.NotYetSent(t.leader.writes[i - 1].phase) {
        if LeaderPart(step).Some? {
          L.SentOnlyBySend(s.models, s.ops, |s.followers|, s.leader, LeaderPart(step).value, i);
          assert L.WriteKept(s.leader, t.leader, LeaderPart(step).value, i);
        }
        assert WriteInNet(s, i);
      }
    }
  }

  lemma LeaderStepKeepsNet(s: State, step: Step)
    requires Inv(s) && Enabled(s, step) && !step.AtFollower?
    ensures NetOk(Do(s, step))
  {
    EmittedOk(s, step);
    if step.Send? {
      SendIsInNet(s, step);
    }
    LeaderStepEffect(s, step);
    NetKept(s, Do(s, step), step);
  }

  lemma LeaderStepKeepsKnown(s: State, step: Step)
    requires Inv(s) && Enabled(s, step) && !step.AtFollower?
    ensures KnownOk(Do(s, step))
  {
    if step.Record? {
      var f := s.followers[step.peer];
      assert F.PhaseOk(f, f.handlers[step.h].request, f.handlers[step.h].phase);
    }
    KnownUnlessRecorded(s, step);
  }

  lemma KnownUnlessRecorded(s: State, step: Step)
    requires Enabled(s, step) && !step.AtFollower?
    ensures !step.Record? ==> Do(s, step).leader.known == s.leader.known
    ensures step.Record? ==> Do(s, step).leader.known == s.leader.known[step.peer := step.index]
  {
  }

  /** Success answers of a write's own request are still there after any growth of the followers. */
  lemma AckedKept(s: State, t: State, i: nat, p: nat)
    requires 1 <= i <= |s.leader.writes| <= |t.leader.writes| && Acked(s, i, p)
    requires t.leader.writes[i - 1].sent == s.leader.writes[i - 1].sent
    requires |t.followers| == |s.followers| && F.Grows(s.followers[p], t.followers[p])
    ensures Acked(t, i, p)
  {
    var h :| AckedBy(s, i, p, h);
    assert AckedBy(t, i, p, h);
  }

  /** A collected answer is a success answer to the write's own request. */
  lemma CollectIsAck(s: State, step: Step)
    requires NetOk(s) && HandlersFromNet(s)
    requires Enabled(s, step) && step.Collect? && 1 <= step.i <= |s.leader.writes|
    ensures Acked(s, step.i, step.peer)
  {
    assert InNet(s, s.followers[step.peer].handlers[step.h].request);
    assert AckedBy(s, step.i, step.peer, step.h);
  }

  lemma AckFromBefore(s: State, step: Step, i: nat, p: nat)
    requires Inv(s) && Enabled(s, step) && !step.AtFollower?
    requires 1 <= i <= |s.leader.writes|
    requires i <= |Do(s, step).leader.writes| && p in Do(s, step).leader.writes[i - 1].acks
    ensures Acked(s, i, p) && Do(s, step).leader.writes[i - 1].sent == s.leader.writes[i - 1].sent
  {
    LeaderStepEffect(s, step);
    assert L.WriteOk(s.ops, |s.followers|, s.leader, i);
    if LeaderPart(step).Some? {
      assert L.WriteKept(s.leader, Do(s, step).leader, LeaderPart(step).value, i);
    }
    if p !in s.leader.writes[i - 1].acks {
      CollectIsAck(s, step);
    }
  }

  lemma LeaderStepKeepsAcks(s: State, step: Step)
    requires Inv(s) && Enabled(s, step) && !step.AtFollower?
    ensures AcksOk(Do(s, step))
  {
    var t := Do(s, step);
    LeaderStepEffect(s, step);
    forall i, p | 1 <= i <= |t.leader.writes| && p in t.leader.writes[i - 1].acks
      ensures Acked(t, i, p)
    {
      assert i <= |s.leader.writes|;
      AckFromBefore(s, step, i, p);
      AckedKept(s, t, i, p);
    }
  }

  lemma FollowerStepGrows(s: State, step: Step)
    requires Inv(s) && Enabled(s, step) && step.AtFollower?
    ensures F.Grows(s.followers[step.peer], Do(s, step).followers[step.peer])
    ensures F.Inv(s.models, s.ops, Do(s, step).followers[step.peer])
  {
    var f := s.followers[step.peer];
    if step.step.Receive? {
      assert InNet(s, step.step.request);
    }
    F.StepKeepsInv(s.models, s.ops, f, step.step);
    F.StepGrows(s.models, s.ops, f, step.step);
  }

  lemma HandlersKept(s: State, t: State, peer: nat, arrived: set<F.Request>)
    requires HandlersFromNet(s) && peer < |s.followers| && |t.followers| == |s.followers|
    requires t == s.(followers := s.followers[peer := t.followers[peer]])
    requires forall r :: r in arrived ==> r in s.net && Deliverable(r, peer)
    requires F.RequestsFrom(s.followers[peer], t.followers[peer], arrived)
    ensures HandlersFromNet(t)
  {
    forall p, h | 0 <= p < |t.followers| && 0 <= h < |t.followers[p].handlers|
      ensures t.followers[p].handlers[h].request in t.net && Deliverable(t.followers[p].handlers[h].request, p)
    {
      if p != peer || h < |s.followers[p].handlers| {
        assert t.followers[p].handlers[h].request == s.followers[p].handlers[h].request;
      }
    }
  }

  lemma FollowerStepKeepsInv(s: State, step: Step)
    requires Inv(s) && Enabled(s, step) && step.AtFollower?
    ensures Inv(Do(s, step))
  {
    var t := Do(s, step);
    FollowerStepGrows(s, step);
    F.StepKeepsRequests(s.models, s.followers[step.peer], step.step);
    HandlersKept(s, t, step.peer, F.Arrived(step.step));
    FollowerChangeKeepsRest(s, t, step.peer);
    FollowerStaysWithinLeader(s, step);
    forall i | 1 <= i <= |t.leader.writes|
      ensures WriteInNet(t, i)
    {
      assert WriteInNet(s, i);
    }
  }

  /** A follower step either leaves the log alone or merges the request of one of its handlers. */
  lemma FollowerLogChange(models: seq<Model>, f: F.Node, a: F.Action)
    requires F.Enabled(models, f, a)
    ensures F.Do(models, f, a).log ==
              if a.MergeEntries? then Merge(f.log, f.handlers[a.h].request.entries) else f.log
  {
  }

  lemma FollowerStaysWithinLeader(s: State, step: Step)
    requires Inv(s) && Enabled(s, step) && step.AtFollower?
    ensures WithinLeader(Do(s, step))
  {
    var f := s.followers[step.peer];
    FollowerLogChange(s.models, f, step.step);
    if step.step.MergeEntries? {
      assert InNet(s, f.handlers[step.step.h].request);
    }
  }

  /** Growth of one follower disturbs nothing the leader or the network relies on. */
  lemma FollowerChangeKeepsRest(s: State, t: State, peer: nat)
    requires Inv(s) && peer < |s.followers| && |t.followers| == |s.followers|
    requires t == s.(followers := s.followers[peer := t.followers[peer]])
    requires F.Grows(s.followers[peer], t.followers[peer])
    requires F.Inv(s.models, s.ops, t.followers[peer])
    ensures NodesOk(t) && NetOk(t) && KnownOk(t) && AcksOk(t)
  {
    LastIndexMonotone(s.followers[peer].log, t.followers[peer].log);
    forall r | r in t.net
      ensures InNet(t, r)
    {
      assert InNet(s, r);
    }
    forall i, p | 1 <= i <= |t.leader.writes| && p in t.leader.writes[i - 1].acks
      ensures Acked(t, i, p)
    {
      assert Acked(s, i, p);
      AckedKept(s, t, i, p);
    }
  }

  /** Every step of every node keeps the invariant of the cluster. */
  lemma StepKeepsInv(s: State, step: Step)
    requires Inv(s) && Enabled(s, step)
    ensures Inv(Do(s, step))
  {
    if step.AtFollower? {
      FollowerStepKeepsInv(s, step);
    } else {
      LeaderStepKeepsNodes(s, step);
      LeaderStepKeepsNet(s, step);
      LeaderStepKeepsKnown(s, step);
      LeaderStepKeepsAcks(s, step);
      LeaderStepKeepsSentInNet(s, step);
      LeaderStepEffect(s, step);
    }
  }
}
