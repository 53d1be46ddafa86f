/**
  When the requests of a run have holes, and the guarantees of the writes and runs whose requests have
  none. Each condition is one the leader can check when it builds a request: which of the indices it
  has handed out still wait for their insert.
 */
module CleanRuns {
  import opened Wrappers
  import opened Crud
  import opened ReplicatedLog
  import opened Cluster
  import opened Safety
  import L = Leader
  import F = Follower

  ghost predicate NonePendingUpTo(s: State, c: nat) {
    forall i :: 1 <= i <= c ==> !L.At(s.leader, i, L.Reserved)
  }

  /** No insert is pending below the last stored entry; pending inserts behind it do no harm. */
  ghost predicate Gapless(s: State) {
    NonePendingUpTo(s, LastIndex(s.leader.log))
  }

  lemma GaplessIff(s: State)
    requires Inv(s)
    ensures HoleFree(s.leader.log) <==> Gapless(s)
  {
    var last := LastIndex(s.leader.log);
    assert last == 0 || last in s.leader.log;
    RequestIsHoleFreeIffNoPendingInsert(s, last);
  }

  // ---------------------------------------------------------------- what a write sent

  /** Write i has been sent, with the given entries. */
  ghost predicate SentIs(s: State, i: nat, entries: Log) {
    && 1 <= i <= |s.leader.writes|
    && !L.NotYetSent(s.leader.writes[i - 1].phase)
    && s.leader.writes[i - 1].sent == entries
  }

  lemma StepKeepsSentIs(s: State, step: Step, i: nat, entries: Log)
    requires Enabled(s, step) && SentIs(s, i, entries)
    ensures SentIs(Do(s, step), i, entries)
  {
    if LeaderPart(step).Some? {
      var a := LeaderPart(step).value;
      L.StepKeepsSent(s.models, s.ops, |s.followers|, s.leader, a);
      assert L.WriteKept(s.leader, Do(s, step).leader, a, i);
    }
  }

  lemma SendRecordsLog(s: State, step: Step)
    requires Enabled(s, step) && step.Send?
    ensures SentIs(Do(s, step), step.i, s.leader.log) && step.i <= |s.leader.writes|
  {
  }

  /** From its Send on, a write's request is the leader's log at that Send. */
  lemma {:induction false} SendFixesRequest(
      models: seq<Model>, followers: nat, states: seq<State>, steps: seq<Step>, j: nat, k: nat)
    requires Run(models, followers, states, steps) && j < k <= |steps| && steps[j].Send?
    ensures SentIs(states[k], steps[j].i, states[j].leader.log)
    ensures steps[j].i <= |states[j].leader.writes|
  {
    RunStep(models, followers, states, steps, j);
    SendRecordsLog(states[j], steps[j]);
    if j + 1 < k {
      SendFixesRequest(models, followers, states, steps, j, k - 1);
      RunStep(models, followers, states, steps, k - 1);
      StepKeepsSentIs(states[k - 1], steps[k - 1], steps[j].i, states[j].leader.log);
    }
  }

  /** A write that has been sent was sent by a Send step of its own. */
  lemma {:induction false} SentBySend(
      models: seq<Model>, followers: nat, states: seq<State>, steps: seq<Step>, k: nat, i: nat)
      returns (j: nat)
    requires Run(models, followers, states, steps) && k <= |steps|
    requires 1 <= i <= |states[k].leader.writes| && !L.NotYetSent(states[k].leader.writes[i - 1].phase)
    ensures j < k && steps[j] == Send(i)
  {
    assert k > 0;
    RunStep(models, followers, states, steps, k - 1);
    var s, step := states[k - 1], steps[k - 1];
    if LeaderPart(step).Some? {
      L.SentOnlyBySend(s.models, s.ops, |s.followers|, s.leader, LeaderPart(step).value, i);
    }
    if step == Send(i) {
      j := k - 1;
    } else {
      j := SentBySend(models, followers, states, steps, k - 1, i);
    }
  }

  /**
    A write's request carries every entry up to the write's own, or has no hole at all, exactly when
    no insert was pending up to there when it was sent.
   */
  lemma SentHoleFreeIff(models: seq<Model>, followers: nat, states: seq<State>, steps: seq<Step>, j: nat, k: nat)
    requires Run(models, followers, states, steps) && j < k <= |steps| && steps[j].Send?
    ensures var i, writes := steps[j].i, states[k].leader.writes;
            && 1 <= i <= |writes|
            && (HasPrefix(writes[i - 1].sent, i) <==> NonePendingUpTo(states[j], i))
            && (HoleFree(writes[i - 1].sent) <==> Gapless(states[j]))
  {
    RunKeepsInv(models, followers, states, steps, j);
    SendFixesRequest(models, followers, states, steps, j, k);
    RequestIsHoleFreeIffNoPendingInsert(states[j], steps[j].i);
    GaplessIff(states[j]);
  }

  // ---------------------------------------------------------------- acknowledgement and commit

  /**
    A write that was sent while no smaller index was waiting for its insert: acknowledged means
    applied, in order, at a majority of the cluster.
   */
  lemma CleanAcknowledgedMeansApplied(
      models: seq<Model>, followers: nat, states: seq<State>, steps: seq<Step>, k: nat, i: nat)
    requires Run(models, followers, states, steps) && k <= |steps|
    requires L.At(states[k].leader, i, L.Acknowledged)
    requires forall j :: 0 <= j < k && steps[j] == Send(i) ==> NonePendingUpTo(states[j], i)
    ensures AppliedAtQuorum(states[k], states[k].leader.writes[i - 1].acks, i)
  {
    RunKeepsInv(models, followers, states, steps, k);
    var j := SentBySend(models, followers, states, steps, k, i);
    SentHoleFreeIff(models, followers, states, steps, j, k);
    AcknowledgedMeansAppliedAtMajority(states[k], i);
  }

  /** The leader and the followers in `peers`, a majority, store the whole prefix up to c. */
  ghost predicate PrefixAtQuorum(s: State, peers: set<nat>, c: nat) {
    && Quorum(s, peers)
    && HasPrefix(s.leader.log, c)
    && forall p :: p in peers ==> HasPrefix(s.followers[p].log, c)
  }

  lemma SourceCoversPrefix(s: State, i: nat)
    requires Inv(s) && L.CommitSource(s.leader, i) && HoleFree(s.leader.writes[i - 1].sent)
    ensures PrefixAtQuorum(s, s.leader.writes[i - 1].acks, s.leader.commit)
  {
    CommittedHasQuorum(s, i);
    forall p | p in s.leader.writes[i - 1].acks
      ensures HasPrefix(s.followers[p].log, s.leader.commit)
    {
      AckStoresRequest(s, i, p);
    }
    assert L.WriteOk(s.ops, |s.followers|, s.leader, i);
  }

  lemma SourceWasSent(s: State, i: nat)
    requires Inv(s) && L.CommitSource(s.leader, i)
    ensures !L.NotYetSent(s.leader.writes[i - 1].phase)
  {
    assert L.WriteOk(s.ops, |s.followers|, s.leader, i);
  }

  /**
    Only the writes whose requests end at the commit index matter: when they were sent from a gapless
    log, the whole prefix up to the commit index is stored at a majority.
   */
  lemma CleanCommitSafety(models: seq<Model>, followers: nat, states: seq<State>, steps: seq<Step>, k: nat)
    requires Run(models, followers, states, steps) && k <= |steps|
    requires states[k].leader.commit > 0
    requires forall j :: 0 <= j < k && steps[j].Send? && L.CommitSource(states[k].leader, steps[j].i) ==>
               Gapless(states[j])
    ensures exists peers :: PrefixAtQuorum(states[k], peers, states[k].leader.commit)
  {
    var s := states[k];
    RunKeepsInv(models, followers, states, steps, k);
    var i: nat :| L.CommitSource(s.leader, i);
    SourceWasSent(s, i);
    var j := SentBySend(models, followers, states, steps, k, i);
    SentHoleFreeIff(models, followers, states, steps, j, k);
    SourceCoversPrefix(s, i);
  }

  // ---------------------------------------------------------------- follower logs without holes

  /** Everything from `first` to the end of the entries is there. */
  ghost predicate ContiguousFrom(entries: Log, first: nat) {
    forall i :: first <= i <= LastIndex(entries) ==> i in entries
  }

  /** A request that can still reach follower p adjoins p's log. */
  ghost predicate Adjoins(s: State, r: F.Request, p: nat)
    requires p < |s.followers|
  {
    Deliverable(r, p) ==> ContiguousFrom(r.entries, LastIndex(s.followers[p].log) + 1)
  }

  ghost predicate NoHoles(s: State) {
    && (forall p :: 0 <= p < |s.followers| ==> HoleFree(s.followers[p].log))
    && (forall r, p :: r in s.net && 0 <= p < |s.followers| ==> Adjoins(s, r, p))
  }

  predicate ReadsLog(step: Step) {
    step.Send? || step.Notify? || step.CatchUp?
  }

  /** The queued batch has no hole past the end of any follower's log. */
  ghost predicate QueueAdjoins(s: State) {
    forall p :: 0 <= p < |s.followers| ==> ContiguousFrom(s.leader.queue, LastIndex(s.followers[p].log) + 1)
  }

  /** What a sender has to check so that its request leaves no hole. */
  ghost predicate LeavesNoHole(s: State, step: Step) {
    && (ReadsLog(step) ==> Gapless(s))
    && (step.TakeBatch? ==> QueueAdjoins(s))
  }

  lemma MergeOfAdjoiningIsHoleFree(log: Log, entries: Log)
    requires HoleFree(log) && ContiguousFrom(entries, LastIndex(log) + 1)
    ensures HoleFree(Merge(log, entries))
    ensures LastIndex(log) <= LastIndex(Merge(log, entries))
  {
    var merged := Merge(log, entries);
    assert merged.Keys == log.Keys + entries.Keys;
    forall i | 1 <= i <= LastIndex(merged)
      ensures i in merged
    {
      if i > LastIndex(log) {
        assert LastIndex(merged) in entries;
      }
    }
  }

  /** Cutting a log at or before c + 1 does not change what is missing behind c. */
  lemma TailContiguousIff(log: Log, first: nat, c: nat)
    requires first <= c + 1
    ensures ContiguousFrom(EntriesFrom(log, first), c + 1) <==> ContiguousFrom(log, c + 1)
  {
    var tail := EntriesFrom(log, first);
    LastIndexMonotone(tail, log);
    if LastIndex(log) > c {
      assert LastIndex(log) in tail;
    }
  }

  lemma ContiguousIffHoleFree(log: Log, c: nat)
    requires HasPrefix(log, c)
    ensures ContiguousFrom(log, c + 1) <==> HoleFree(log)
  {
    if ContiguousFrom(log, c + 1) {
      forall i | 1 <= i <= LastIndex(log)
        ensures i in log
      {
        assert i <= c || c + 1 <= i;
      }
    }
  }

  /** From a state without holes, a request built from the log adjoins a follower's log exactly when the log is gapless. */
  lemma EmittedAdjoinsIff(s: State, step: Step, r: F.Request, p: nat)
    requires Inv(s) && NoHoles(s) && Enabled(s, step) && ReadsLog(step)
    requires r in Emitted(s, step) && p < |s.followers| && Deliverable(r, p)
    ensures Adjoins(s, r, p) <==> Gapless(s)
  {
    var last := LastIndex(s.followers[p].log);
    GaplessIff(s);
    assert HasPrefix(s.leader.log, last);
    ContiguousIffHoleFree(s.leader.log, last);
    if step.CatchUp? {
      TailContiguousIff(s.leader.log, s.leader.known[p] + 1, last);
    } else {
      assert r.entries == s.leader.log;
    }
  }

  lemma NoHolesAfterFollower(s: State, t: State, peer: nat)
    requires NoHoles(s) && peer < |s.followers| && |t.followers| == |s.followers|
    requires t == s.(followers := s.followers[peer := t.followers[peer]])
    requires HoleFree(t.followers[peer].log)
    requires LastIndex(s.followers[peer].log) <= LastIndex(t.followers[peer].log)
    ensures NoHoles(t)
  {
    forall r, p | r in t.net && 0 <= p < |t.followers|
      ensures Adjoins(t, r, p)
    {
      assert Adjoins(s, r, p);
    }
  }

  lemma FollowerStepLeavesNoHole(s: State, step: Step)
    requires Inv(s) && NoHoles(s) && Enabled(s, step) && step.AtFollower?
    ensures NoHoles(Do(s, step))
  {
    var f := s.followers[step.peer];
    FollowerLogChange(s.models, f, step.step);
    if step.step.MergeEntries? {
      var r := f.handlers[step.step.h].request;
      assert r in s.net && Adjoins(s, r, step.peer);
      MergeOfAdjoiningIsHoleFree(f.log, r.entries);
    }
    NoHolesAfterFollower(s, Do(s, step), step.peer);
  }

  ghost predicate EmittedAdjoin(s: State, step: Step)
    requires Enabled(s, step)
  {
    forall r, p :: r in Emitted(s, step) && 0 <= p < |s.followers| ==> Adjoins(s, r, p)
  }

  /** A step at the leader leaves no hole exactly when what it sends adjoins every follower it can reach. */
  lemma LeaderStepLeavesNoHoleIff(s: State, step: Step)
    requires Inv(s) && NoHoles(s) && Enabled(s, step) && !step.AtFollower?
    ensures NoHoles(Do(s, step)) <==> EmittedAdjoin(s, step)
  {
    var t := Do(s, step);
    LeaderStepEffect(s, step);
    forall r, p | r in t.net && 0 <= p < |t.followers|
      ensures Adjoins(t, r, p) <==> Adjoins(s, r, p)
    {
    }
    if NoHoles(t) {
      forall r, p | r in Emitted(s, step) && 0 <= p < |s.followers|
        ensures Adjoins(s, r, p)
      {
        assert r in t.net && Adjoins(t, r, p);
      }
    }
  }

  lemma EmittedAdjoinIff(s: State, step: Step)
    requires Inv(s) && NoHoles(s) && Enabled(s, step) && !step.AtFollower? && |s.followers| > 0
    ensures EmittedAdjoin(s, step) <==> LeavesNoHole(s, step)
  {
    if ReadsLog(step) {
      forall r, p | r in Emitted(s, step) && 0 <= p < |s.followers| && Deliverable(r, p)
        ensures Adjoins(s, r, p) <==> Gapless(s)
      {
        EmittedAdjoinsIff(s, step, r, p);
      }
      var r := RequestOf(s, step).value;
      var target := if step.CatchUp? then step.peer else 0;
      assert Deliverable(r, target);
    } else if step.TakeBatch? {
      var r := RequestOf(s, step).value;
      assert forall p :: 0 <= p < |s.followers| ==>
          (Adjoins(s, r, p) <==> ContiguousFrom(s.leader.queue, LastIndex(s.followers[p].log) + 1));
    }
  }

  /**
    From a state without holes, a step keeps every follower's log, and every request on its way,
    free of holes exactly when a request it builds from the log is built from a gapless log, and a
    batch it takes from the queue adjoins every follower's log.
   */
  lemma StepLeavesNoHoleIff(s: State, step: Step)
    requires Inv(s) && NoHoles(s) && Enabled(s, step) && |s.followers| > 0
    ensures NoHoles(Do(s, step)) <==> LeavesNoHole(s, step)
  {
    if step.AtFollower? {
      FollowerStepLeavesNoHole(s, step);
    } else {
      LeaderStepLeavesNoHoleIff(s, step);
      EmittedAdjoinIff(s, step);
    }
  }

  ghost predicate NeverAHole(states: seq<State>, k: nat)
    requires k < |states|
  {
    forall j :: 0 <= j <= k ==> NoHoles(states[j])
  }

  ghost predicate EveryCheckHeld(states: seq<State>, steps: seq<Step>, k: nat)
    requires k <= |states| && k <= |steps|
  {
    forall j :: 0 <= j < k ==> LeavesNoHole(states[j], steps[j])
  }

  /**
    Over whole runs: no follower's log ever has a hole, and every request adjoins the log it arrives
    at, exactly when every sender's check held.
   */
  lemma {:induction false} RunLeavesNoHoleIff(
      models: seq<Model>, followers: nat, states: seq<State>, steps: seq<Step>, k: nat)
    requires Run(models, followers, states, steps) && k <= |steps| && followers > 0
    ensures NeverAHole(states, k) <==> EveryCheckHeld(states, steps, k)
  {
    if k == 0 {
      assert NoHoles(states[0]);
    } else {
      RunLeavesNoHoleIff(models, followers, states, steps, k - 1);
      NextLeavesNoHoleIff(models, followers, states, steps, k - 1);
      NeverAHoleUnfolds(states, k);
    }
  }

  lemma NextLeavesNoHoleIff(
      models: seq<Model>, followers: nat, states: seq<State>, steps: seq<Step>, k: nat)
    requires Run(models, followers, states, steps) && k < |steps| && followers > 0
    ensures NoHoles(states[k]) ==> (NoHoles(states[k + 1]) <==> LeavesNoHole(states[k], steps[k]))
  {
    RunKeepsInv(models, followers, states, steps, k);
    RunStep(models, followers, states, steps, k);
    if NoHoles(states[k]) {
      StepLeavesNoHoleIff(states[k], steps[k]);
    }
  }

  lemma NeverAHoleUnfolds(states: seq<State>, k: nat)
    requires 0 < k < |states|
    ensures NeverAHole(states, k) <==> NeverAHole(states, k - 1) && NoHoles(states[k])
    ensures NeverAHole(states, k - 1) ==> NoHoles(states[k - 1])
  {
  }

  /**
    Sends from index 1 and incremental catch-up alone: when each reads a gapless log, no follower's
    log ever has a hole, and every message adjoins the log it arrives at.
   */
  lemma CatchUpLeavesNoHole(models: seq<Model>, followers: nat, states: seq<State>, steps: seq<Step>, k: nat)
    requires Run(models, followers, states, steps) && k <= |steps|
    requires forall j :: 0 <= j < k && ReadsLog(steps[j]) ==> Gapless(states[j])
    requires TakeBatch !in steps[..k]
    ensures NoHoles(states[k])
  {
    RunKeepsInv(models, followers, states, steps, k);
    if followers > 0 {
      forall j | 0 <= j < k
        ensures LeavesNoHole(states[j], steps[j])
      {
        assert steps[j] in steps[..k];
      }
      RunLeavesNoHoleIff(models, followers, states, steps, k);
    }
  }
}
