/** What the steps of the cluster lead to from a given state, and what they keep on the way. */
module ClusterReach {
  import opened Crud
  import opened ReplicatedLog
  import opened Cluster
  import opened Safety
  import opened CleanRuns
  import Reachability
  import L = Leader
  import F = Follower

  ghost predicate CanReach(s: State, t: State) {
    Reachability.CanReach(Next, s, t)
  }

  lemma Then(s: State, t: State, u: State)
    requires CanReach(s, t) && CanReach(t, u)
    ensures CanReach(s, u)
  {
    Reachability.Then(Next, s, t, u);
  }

  lemma One(s: State, step: Step)
    requires Enabled(s, step)
    ensures CanReach(s, Do(s, step))
  {
    Reachability.One(Next, s, step, Do(s, step));
  }

  lemma ReachKeepsInv(s: State, t: State)
    requires Inv(s) && CanReach(s, t)
    ensures Inv(t)
  {
    forall p: State, step: Step, q: State | Inv(p) && Next(p, step, q)
      ensures Inv(q)
    {
      StepKeepsInv(p, step);
    }
    Reachability.ReachKeeps(Next, Inv, s, t);
  }

  /** A run can be extended by whatever can be reached from its end. */
  lemma RunGoesOn(models: seq<Model>, followers: nat, states: seq<State>, steps: seq<Step>, t: State)
      returns (longer: seq<State>, more: seq<Step>)
    requires Run(models, followers, states, steps) && CanReach(states[|steps|], t)
    ensures Run(models, followers, longer, more) && longer[|more|] == t
  {
    var path: seq<State>, labels: seq<Step> :| Reachability.Leads(Next, states[|steps|], path, labels, t);
    longer, more := states + path[1..], steps + labels;
    assert Reachability.Leads(Next, states[0], states, steps, states[|steps|]);
    Reachability.LeadsConcat(Next, states[0], states, steps, states[|steps|], path, labels, t);
  }

  ghost function SentAs(i: nat, entries: Log): State -> bool {
    (s: State) => SentIs(s, i, entries)
  }

  lemma ReachKeepsSent(s: State, t: State, i: nat, entries: Log)
    requires SentIs(s, i, entries) && CanReach(s, t)
    ensures SentIs(t, i, entries)
  {
    forall p: State, step: Step, q: State | SentAs(i, entries)(p) && Next(p, step, q)
      ensures SentAs(i, entries)(q)
    {
      StepKeepsSentIs(p, step, i, entries);
    }
    Reachability.ReachKeeps(Next, SentAs(i, entries), s, t);
  }

  /** The history only grows, and so do the writes; registry and followers stay the same. */
  ghost predicate Later(s: State, t: State) {
    && t.models == s.models && s.ops <= t.ops
    && |t.followers| == |s.followers|
    && |s.leader.writes| <= |t.leader.writes|
    && s.leader.log.Keys <= t.leader.log.Keys
  }

  ghost function LaterThan(s: State): State -> bool {
    (t: State) => Inv(t) && Later(s, t)
  }

  lemma StepIsLater(s: State, step: Step)
    requires Enabled(s, step)
    ensures Later(s, Do(s, step))
  {
    if !step.AtFollower? {
      LeaderStepEffect(s, step);
    }
  }

  lemma ReachIsLater(s: State, t: State)
    requires Inv(s) && CanReach(s, t)
    ensures Inv(t) && Later(s, t)
  {
    forall p: State, step: Step, q: State | LaterThan(s)(p) && Next(p, step, q)
      ensures LaterThan(s)(q)
    {
      StepKeepsInv(p, step);
      StepIsLater(p, step);
    }
    Reachability.ReachKeeps(Next, LaterThan(s), s, t);
  }

  /** A failed write stays failed. */
  ghost function FailedAt(i: nat): State -> bool {
    (s: State) => Inv(s) && L.At(s.leader, i, L.Failed)
  }

  lemma ReachKeepsFailed(s: State, t: State, i: nat)
    requires Inv(s) && L.At(s.leader, i, L.Failed) && CanReach(s, t)
    ensures Inv(t) && L.At(t.leader, i, L.Failed)
  {
    forall p: State, step: Step, q: State | FailedAt(i)(p) && Next(p, step, q)
      ensures FailedAt(i)(q)
    {
      StepKeepsInv(p, step);
      StepKeepsFailed(p, step, i);
    }
    Reachability.ReachKeeps(Next, FailedAt(i), s, t);
  }
}
