/**
  What a follower's answer shows. A write that is sent after a given state is answered only by
  followers that have, in the meantime, applied everything their log and their commit index of that
  state oblige them to list.
 */
module Answers {
  import opened Wrappers
  import opened Crud
  import opened ReplicatedLog
  import opened Cluster
  import opened Safety
  import opened CleanRuns
  import opened ClusterReach
  import Reachability
  import L = Leader
  import F = Follower

  // ---------------------------------------------------------------- one handler

  /** The request as if it had come with this commit index. */
  function WithCommit(r: F.Request, bound: nat): F.Request {
    r.(leaderCommit := bound)
  }

  /** By the time it reports success, the handler will have applied what its request holds up to `bound`. */
  ghost predicate Obliged(f: F.Node, h: nat, bound: nat)
    requires h < |f.handlers|
  {
    var r, p := f.handlers[h].request, f.handlers[h].phase;
    && (p.Received? ==> Max(f.commit, r.leaderCommit) >= bound)
    && (p.Merged? ==> p.at >= bound)
    && (F.InApply(p) ==> F.Covers(WithCommit(r, bound), p.first + |p.batch| - 1))
    && ((p.Released? || p.Done?) && p.success ==> F.Covers(WithCommit(r, bound), f.applied))
  }

  lemma LockObliges(models: seq<Model>, ops: seq<CrudOp>, f: F.Node, h: nat, seen: nat, bound: nat)
    requires F.Inv(models, ops, f) && F.Enabled(models, f, F.Lock(h, seen)) && Obliged(f, h, bound)
    ensures Obliged(F.Do(models, f, F.Lock(h, seen)), h, bound)
  {
    assert F.PhaseOk(f, f.handlers[h].request, f.handlers[h].phase);
    F.LockedBatchCovers(f, WithCommit(f.handlers[h].request, bound), seen);
  }

  lemma ActorStaysObliged(models: seq<Model>, ops: seq<CrudOp>, f: F.Node, a: F.Action, bound: nat)
    requires F.Inv(models, ops, f) && F.Enabled(models, f, a) && !a.Receive? && Obliged(f, a.h, bound)
    ensures Obliged(F.Do(models, f, a), a.h, bound)
  {
    if a.Lock? {
      LockObliges(models, ops, f, a.h, a.seen, bound);
    } else {
      assert F.PhaseOk(f, f.handlers[a.h].request, f.handlers[a.h].phase);
    }
  }

  lemma BystanderStaysObliged(models: seq<Model>, ops: seq<CrudOp>, f: F.Node, a: F.Action, h: nat, bound: nat)
    requires F.Inv(models, ops, f) && F.Enabled(models, f, a)
    requires h < |f.handlers| && (a.Receive? || h != a.h) && Obliged(f, h, bound)
    ensures h < |F.Do(models, f, a).handlers| && Obliged(F.Do(models, f, a), h, bound)
  {
    F.StepGrows(models, ops, f, a);
  }

  lemma StaysObliged(models: seq<Model>, ops: seq<CrudOp>, f: F.Node, a: F.Action, h: nat, bound: nat)
    requires F.Inv(models, ops, f) && F.Enabled(models, f, a)
    requires h < |f.handlers| && Obliged(f, h, bound)
    ensures h < |F.Do(models, f, a).handlers| && Obliged(F.Do(models, f, a), h, bound)
  {
    if !a.Receive? && h == a.h {
      ActorStaysObliged(models, ops, f, a, bound);
    } else {
      BystanderStaysObliged(models, ops, f, a, h, bound);
    }
  }

  // ---------------------------------------------------------------- all handlers of one write at one follower

  ghost predicate AllObliged(f: F.Node, x: nat, bound: nat) {
    forall h :: 0 <= h < |f.handlers| && f.handlers[h].request.source == F.FromWrite(x) ==> Obliged(f, h, bound)
  }

  /** Every handler of write x at follower p is obliged by the commit index c as well as by its request. */
  ghost predicate ObligedAt(s: State, x: nat, p: nat, c: nat) {
    && p < |s.followers|
    && s.followers[p].commit >= c
    && AllObliged(s.followers[p], x, Max(c, x))
  }

  lemma FollowerStaysObliged(s: State, a: F.Action, x: nat, p: nat, c: nat)
    requires Inv(s) && Enabled(s, AtFollower(p, a)) && ObligedAt(s, x, p, c)
    ensures ObligedAt(Do(s, AtFollower(p, a)), x, p, c)
  {
    var f, g := s.followers[p], F.Do(s.models, s.followers[p], a);
    F.StepGrows(s.models, s.ops, f, a);
    F.StepKeepsRequests(s.models, f, a);
    forall h | 0 <= h < |g.handlers| && g.handlers[h].request.source == F.FromWrite(x)
      ensures Obliged(g, h, Max(c, x))
    {
      if h < |f.handlers| {
        StaysObliged(s.models, s.ops, f, a, h, Max(c, x));
      } else {
        assert InNet(s, g.handlers[h].request);
      }
    }
  }

  ghost function ObligedUntil(x: nat, p: nat, c: nat): State -> bool {
    (s: State) => Inv(s) && ObligedAt(s, x, p, c)
  }

  lemma NextStaysObliged(s: State, step: Step, x: nat, p: nat, c: nat)
    requires Inv(s) && Enabled(s, step) && ObligedAt(s, x, p, c)
    ensures ObligedAt(Do(s, step), x, p, c)
  {
    if step.AtFollower? && step.peer == p {
      FollowerStaysObliged(s, step.step, x, p, c);
    }
  }

  lemma ReachStaysObliged(s: State, t: State, x: nat, p: nat, c: nat)
    requires Inv(s) && CanReach(s, t) && ObligedAt(s, x, p, c)
    ensures Inv(t) && ObligedAt(t, x, p, c)
  {
    forall q: State, step: Step, r: State | ObligedUntil(x, p, c)(q) && Next(q, step, r)
      ensures ObligedUntil(x, p, c)(r)
    {
      StepKeepsInv(q, step);
      NextStaysObliged(q, step, x, p, c);
    }
    Reachability.ReachKeeps(Next, ObligedUntil(x, p, c), s, t);
  }

  /** No follower has heard of a write that has not been sent. */
  lemma UnsentIsUnheard(s: State, x: nat, p: nat)
    requires Inv(s) && 1 <= x <= |s.leader.writes| && L.NotYetSent(s.leader.writes[x - 1].phase)
    requires p < |s.followers|
    ensures forall h :: 0 <= h < |s.followers[p].handlers| ==>
              s.followers[p].handlers[h].request.source != F.FromWrite(x)
  {
    forall h | 0 <= h < |s.followers[p].handlers|
      ensures s.followers[p].handlers[h].request.source != F.FromWrite(x)
    {
      assert InNet(s, s.followers[p].handlers[h].request);
    }
  }

  /** What a follower that is counted for write i has stored, heard and applied. */
  lemma CountedAnswer(t: State, x: nat, p: nat) returns (h: nat)
    requires Inv(t) && 1 <= x <= |t.leader.writes| && p in t.leader.writes[x - 1].acks
    ensures p < |t.followers| && h < |t.followers[p].handlers|
    ensures var k := t.followers[p].handlers[h];
            && k.request == F.Request(F.FromWrite(x), t.leader.writes[x - 1].sent, x)
            && k.phase.Done? && k.phase.success
  {
    assert Acked(t, x, p);
    h :| AckedBy(t, x, p, h);
  }

  /**
    A follower that is counted for write x, which was not sent yet in state s, has applied every prefix
    of the request up to x, and up to the commit index it had in state s.
   */
  lemma AnswerCovers(s: State, t: State, x: nat, p: nat)
    requires Inv(s) && CanReach(s, t) && 1 <= x <= |s.leader.writes| && L.NotYetSent(s.leader.writes[x - 1].phase)
    requires x <= |t.leader.writes| && p in t.leader.writes[x - 1].acks
    ensures p < |s.followers| == |t.followers|
    ensures F.Covers(F.Request(F.FromWrite(x), t.leader.writes[x - 1].sent, Max(s.followers[p].commit, x)),
                     t.followers[p].applied)
  {
    ReachIsLater(s, t);
    var h := CountedAnswer(t, x, p);
    UnsentIsUnheard(s, x, p);
    ReachStaysObliged(s, t, x, p, s.followers[p].commit);
    assert Obliged(t.followers[p], h, Max(s.followers[p].commit, x));
  }

  /** Such a prefix applies. */
  lemma AnsweredPrefixApplies(s: State, t: State, p: nat, c: nat)
    requires Inv(s) && CanReach(s, t) && p < |t.followers| && c <= t.followers[p].applied && c <= |s.ops|
    ensures Replay(s.models, s.ops[..c]).Ok?
  {
    ReachIsLater(s, t);
    var f := t.followers[p];
    assert F.Inv(t.models, t.ops, f);
    ReplayPrefixOk(t.models, t.ops[..F.Reflected(f)], c);
    assert t.ops[..F.Reflected(f)][..c] == s.ops[..c];
  }

  // ---------------------------------------------------------------- two answers of one follower

  /** By the time it reports success, the handler will have applied entry i. */
  ghost predicate BoundFor(f: F.Node, h: nat, i: nat)
    requires h < |f.handlers|
  {
    var p := f.handlers[h].phase;
    && !p.Received?
    && (p.Merged? ==> p.at >= i && HasPrefix(f.log, i))
    && (F.InApply(p) ==> i <= p.first + |p.batch| - 1)
    && ((p.Released? || p.Done?) && p.success ==> i <= f.applied)
  }

  lemma StaysBound(models: seq<Model>, ops: seq<CrudOp>, f: F.Node, a: F.Action, h: nat, i: nat)
    requires F.Inv(models, ops, f) && F.Enabled(models, f, a)
    requires h < |f.handlers| && BoundFor(f, h, i)
    ensures h < |F.Do(models, f, a).handlers| && BoundFor(F.Do(models, f, a), h, i)
  {
    F.StepGrows(models, ops, f, a);
    assert F.PhaseOk(f, f.handlers[h].request, f.handlers[h].phase);
    if a.Lock? && a.h == h {
      UnappliedReaches(f.log, f.applied, a.seen, i);
    }
  }

  /** A handler that brings commit index i, and one that brings the prefix up to i. */
  predicate Pair(f: F.Node, h: nat, g: nat, i: nat) {
    && h < |f.handlers| && g < |f.handlers|
    && f.handlers[h].request.source == F.FromWrite(i)
  }

  ghost predicate PairBound(f: F.Node, h: nat, g: nat, i: nat)
    requires Pair(f, h, g, i)
  {
    !f.handlers[h].phase.Received? && !f.handlers[g].phase.Received? && HasPrefix(f.handlers[g].request.entries, i)
    ==> BoundFor(f, h, i) || BoundFor(f, g, i)
  }

  /** Whichever of the two merges last is bound to apply entry i. */
  lemma PairStaysBound(models: seq<Model>, ops: seq<CrudOp>, f: F.Node, a: F.Action, h: nat, g: nat, i: nat)
    requires F.Inv(models, ops, f) && F.Enabled(models, f, a)
    requires Pair(f, h, g, i) && f.handlers[h].request.leaderCommit == i && PairBound(f, h, g, i)
    ensures Pair(F.Do(models, f, a), h, g, i) && PairBound(F.Do(models, f, a), h, g, i)
  {
    F.StepGrows(models, ops, f, a);
    assert F.PhaseOk(f, f.handlers[h].request, f.handlers[h].phase);
    assert F.PhaseOk(f, f.handlers[g].request, f.handlers[g].phase);
    if BoundFor(f, h, i) {
      StaysBound(models, ops, f, a, h, i);
    } else if BoundFor(f, g, i) {
      StaysBound(models, ops, f, a, g, i);
    } else if a.MergeEntries? && (a.h == h || a.h == g) && HasPrefix(f.handlers[g].request.entries, i) {
      LastMergeBinds(models, f, h, g, a.h, i);
    }
  }

  lemma LastMergeBinds(models: seq<Model>, f: F.Node, h: nat, g: nat, last: nat, i: nat)
    requires Pair(f, h, g, i) && (last == h || last == g) && F.Enabled(models, f, F.MergeEntries(last))
    requires f.handlers[h].request.leaderCommit == i && HasPrefix(f.handlers[g].request.entries, i)
    requires last == h && g != h && !f.handlers[g].phase.Received? ==> f.handlers[g].request.entries.Keys <= f.log.Keys
    requires last == g && g != h && !f.handlers[h].phase.Received? ==> i <= f.commit
    ensures var k := F.Do(models, f, F.MergeEntries(last));
            Pair(k, h, g, i) && (!k.handlers[h].phase.Received? && !k.handlers[g].phase.Received? ==> BoundFor(k, last, i))
  {
  }

  ghost predicate PairsBound(s: State, p: nat, i: nat) {
    p < |s.followers| &&
    forall h, g :: 0 <= h && 0 <= g && Pair(s.followers[p], h, g, i) ==> PairBound(s.followers[p], h, g, i)
  }

  lemma NextKeepsPairs(s: State, step: Step, p: nat, i: nat)
    requires Inv(s) && Enabled(s, step) && PairsBound(s, p, i)
    ensures PairsBound(Do(s, step), p, i)
  {
    if step.AtFollower? && step.peer == p {
      var f, k := s.followers[p], F.Do(s.models, s.followers[p], step.step);
      F.StepKeepsRequests(s.models, f, step.step);
      forall h, g | 0 <= h && 0 <= g && Pair(k, h, g, i)
        ensures PairBound(k, h, g, i)
      {
        if h < |f.handlers| && g < |f.handlers| {
          assert InNet(s, f.handlers[h].request);
          PairStaysBound(s.models, s.ops, f, step.step, h, g, i);
        }
      }
    }
  }

  ghost function PairsBoundAt(p: nat, i: nat): State -> bool {
    (s: State) => Inv(s) && PairsBound(s, p, i)
  }

  lemma ReachKeepsPairs(s: State, t: State, p: nat, i: nat)
    requires Inv(s) && CanReach(s, t) && PairsBound(s, p, i)
    ensures Inv(t) && PairsBound(t, p, i)
  {
    forall q: State, step: Step, r: State | PairsBoundAt(p, i)(q) && Next(q, step, r)
      ensures PairsBoundAt(p, i)(r)
    {
      StepKeepsInv(q, step);
      NextKeepsPairs(q, step, p, i);
    }
    Reachability.ReachKeeps(Next, PairsBoundAt(p, i), s, t);
  }

  /**
    A follower that is counted for write i, and for a write whose request holds the whole prefix up to
    i, has applied entry i, in whatever order the two requests arrived.
   */
  lemma BothAnswersApply(s: State, t: State, i: nat, x: nat, p: nat)
    requires Inv(s) && CanReach(s, t) && 1 <= i <= |s.leader.writes| && L.NotYetSent(s.leader.writes[i - 1].phase)
    requires i <= |t.leader.writes| && p in t.leader.writes[i - 1].acks
    requires 1 <= x <= |t.leader.writes| && p in t.leader.writes[x - 1].acks
    requires HasPrefix(t.leader.writes[x - 1].sent, i)
    ensures p < |t.followers| && i <= t.followers[p].applied
  {
    ReachIsLater(s, t);
    var h := CountedAnswer(t, i, p);
    var g := CountedAnswer(t, x, p);
    UnsentIsUnheard(s, i, p);
    ReachKeepsPairs(s, t, p, i);
    assert Pair(t.followers[p], h, g, i);
  }
}
