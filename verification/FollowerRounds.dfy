/**
  From any state of a follower a received request can be served to a successful answer, provided that
  what its handler will list applies: whoever holds the apply lock finishes or fails, and then the
  request's own handler merges, applies what it lists and answers.
 */
module FollowerRounds {
  import opened Wrappers
  import opened Crud
  import opened ReplicatedLog
  import opened Follower
  import Reachability

  /** A step of a handler that is already there. */
  ghost function StepOf(models: seq<Model>): (Node, Action, Node) -> bool {
    (f: Node, a: Action, g: Node) => !a.Receive? && Enabled(models, f, a) && g == Do(models, f, a)
  }

  ghost predicate CanReach(models: seq<Model>, f: Node, g: Node) {
    Reachability.CanReach(StepOf(models), f, g)
  }

  lemma Stay(models: seq<Model>, f: Node)
    ensures CanReach(models, f, f)
  {
    Reachability.Stay(StepOf(models), f);
  }

  lemma Then(models: seq<Model>, f: Node, g: Node, k: Node)
    requires CanReach(models, f, g) && CanReach(models, g, k)
    ensures CanReach(models, f, k)
  {
    Reachability.Then(StepOf(models), f, g, k);
  }

  lemma One(models: seq<Model>, f: Node, a: Action)
    requires Enabled(models, f, a) && !a.Receive?
    ensures CanReach(models, f, Do(models, f, a))
  {
    Reachability.One(StepOf(models), f, a, Do(models, f, a));
  }

  /** What one more step of a handler already there keeps, on top of what was reached. */
  lemma Extend(models: seq<Model>, ops: seq<CrudOp>, f: Node, g: Node, a: Action) returns (k: Node)
    requires CanReach(models, f, g) && Inv(models, ops, g) && Enabled(models, g, a) && !a.Receive?
    ensures k == Do(models, g, a) && CanReach(models, f, k) && Inv(models, ops, k)
  {
    k := Do(models, g, a);
    One(models, g, a);
    Then(models, f, g, k);
    StepKeepsInv(models, ops, g, a);
  }

  /** Log, commit index and all handlers but one stay as they are. */
  ghost predicate OnlyHandler(f: Node, g: Node, h: nat) {
    && g.log == f.log && g.commit == f.commit
    && |g.handlers| == |f.handlers|
    && (h < |f.handlers| ==> g.handlers[h].request == f.handlers[h].request)
    && forall k :: 0 <= k < |f.handlers| && k != h ==> g.handlers[k] == f.handlers[k]
  }

  /** Every prefix a handler with this log and commit index would list applies. */
  ghost predicate ListedApply(models: seq<Model>, ops: seq<CrudOp>, log: Log, commit: nat) {
    forall c: nat :: c <= commit && c <= |ops| && HasPrefix(log, c) ==> Replay(models, ops[..c]).Ok?
  }

  lemma LessIsListed(models: seq<Model>, ops: seq<CrudOp>, log: Log, commit: nat, less: Log, smaller: nat)
    requires ListedApply(models, ops, log, commit) && less.Keys <= log.Keys && smaller <= commit
    ensures ListedApply(models, ops, less, smaller)
  {
    forall c: nat | c <= smaller && c <= |ops| && HasPrefix(less, c)
      ensures Replay(models, ops[..c]).Ok?
    {
      assert HasPrefix(log, c);
    }
  }

  /** The whole batch of a handler applies. */
  ghost predicate BatchApplies(models: seq<Model>, ops: seq<CrudOp>, p: Phase)
    requires p.Applying?
  {
    p.first + |p.batch| <= |ops| + 1 && p.first >= 1 && Replay(models, ops[..p.first + |p.batch| - 1]).Ok?
  }

  lemma NextApplies(models: seq<Model>, ops: seq<CrudOp>, f: Node, h: nat)
    requires Inv(models, ops, f)
    requires h < |f.handlers| && f.handlers[h].phase.Applying?
    requires f.handlers[h].phase.done < |f.handlers[h].phase.batch|
    requires BatchApplies(models, ops, f.handlers[h].phase)
    ensures Enabled(models, f, ApplyOk(h))
  {
    var last := f.handlers[h].phase.first + |f.handlers[h].phase.batch| - 1;
    CurrentEntry(models, ops, f, h);
    ReplayPrefixOk(models, ops[..last], f.applied + 1);
    assert ops[..last][..f.applied + 1] == ops[..f.applied + 1];
    ReplayNext(models, ops, f.applied);
    assert f.lock == Some(h);
  }

  /** The lock holder applies and marks one entry. */
  lemma ApplyAndMark(models: seq<Model>, ops: seq<CrudOp>, f: Node, h: nat) returns (g: Node)
    requires Inv(models, ops, f) && Enabled(models, f, ApplyOk(h))
    ensures CanReach(models, f, g) && Inv(models, ops, g) && OnlyHandler(f, g, h)
    ensures var p := f.handlers[h].phase; g.handlers[h].phase == Applying(p.first, p.batch, p.done + 1)
  {
    Stay(models, f);
    var applied := Extend(models, ops, f, f, ApplyOk(h));
    g := Extend(models, ops, f, applied, Mark(h));
  }

  lemma DoneWithin(models: seq<Model>, ops: seq<CrudOp>, f: Node, h: nat)
    requires Inv(models, ops, f)
    requires h < |f.handlers| && f.handlers[h].phase.Applying?
    ensures f.handlers[h].phase.done <= |f.handlers[h].phase.batch|
  {
    assert PhaseOk(f, f.handlers[h].request, f.handlers[h].phase);
  }

  lemma OnlyHandlerThen(f: Node, g: Node, k: Node, h: nat)
    requires OnlyHandler(f, g, h) && OnlyHandler(g, k, h)
    ensures OnlyHandler(f, k, h)
  {
  }

  /** The lock holder applies and marks the rest of its batch. */
  lemma {:induction false} FinishBatch(models: seq<Model>, ops: seq<CrudOp>, f: Node, h: nat) returns (g: Node)
    requires Inv(models, ops, f)
    requires h < |f.handlers| && f.handlers[h].phase.Applying?
    requires BatchApplies(models, ops, f.handlers[h].phase)
    ensures CanReach(models, f, g) && Inv(models, ops, g) && OnlyHandler(f, g, h)
    ensures g.handlers[h].phase.Applying? && g.handlers[h].phase.done == |g.handlers[h].phase.batch|
    decreases |f.handlers[h].phase.batch| - f.handlers[h].phase.done
  {
    DoneWithin(models, ops, f, h);
    if f.handlers[h].phase.done == |f.handlers[h].phase.batch| {
      Stay(models, f);
      g := f;
    } else {
      NextApplies(models, ops, f, h);
      var next := ApplyAndMark(models, ops, f, h);
      g := FinishBatch(models, ops, next, h);
      Then(models, f, next, g);
      OnlyHandlerThen(f, next, g, h);
    }
  }

  /** The lock holder goes through its batch up to the first operation that does not apply, and unlocks. */
  lemma {:induction false} FinishOrFail(models: seq<Model>, ops: seq<CrudOp>, f: Node, h: nat) returns (g: Node)
    requires Inv(models, ops, f)
    requires h < |f.handlers| && f.handlers[h].phase.Applying?
    ensures CanReach(models, f, g) && Inv(models, ops, g) && OnlyHandler(f, g, h) && g.lock == None
    decreases |f.handlers[h].phase.batch| - f.handlers[h].phase.done
  {
    Stay(models, f);
    DoneWithin(models, ops, f, h);
    if f.handlers[h].phase.done == |f.handlers[h].phase.batch| {
      g := Extend(models, ops, f, f, Unlock(h));
    } else if Enabled(models, f, ApplyOk(h)) {
      var next := ApplyAndMark(models, ops, f, h);
      g := FinishOrFail(models, ops, next, h);
      Then(models, f, next, g);
    } else {
      g := Extend(models, ops, f, f, ApplyFail(h));
    }
  }

  /** Whoever holds the apply lock can release it. */
  lemma ReleaseLock(models: seq<Model>, ops: seq<CrudOp>, f: Node, h: nat) returns (g: Node)
    requires Inv(models, ops, f)
    requires h < |f.handlers| && !InApply(f.handlers[h].phase)
    ensures CanReach(models, f, g) && Inv(models, ops, g) && g.lock == None
    ensures g.log == f.log && g.commit == f.commit
    ensures |g.handlers| == |f.handlers| && g.handlers[h] == f.handlers[h]
  {
    Stay(models, f);
    g := f;
    if f.lock.Some? {
      var holder := f.lock.value;
      var applying := f;
      if f.handlers[holder].phase.Marking? {
        applying := Extend(models, ops, f, f, Mark(holder));
      }
      g := FinishOrFail(models, ops, applying, holder);
      Then(models, f, applying, g);
    }
  }

  lemma MergeAndLock(models: seq<Model>, ops: seq<CrudOp>, f: Node, h: nat) returns (g: Node)
    requires Inv(models, ops, f) && f.lock == None
    requires h < |f.handlers| && f.handlers[h].phase.Received?
    ensures CanReach(models, f, g) && Inv(models, ops, g)
    ensures |g.handlers| == |f.handlers| && g.handlers[h].request == f.handlers[h].request
    ensures g.handlers[h].phase == Applying(g.applied + 1, Unapplied(g.log, g.applied, g.commit), 0)
    ensures g.log == Merge(f.log, f.handlers[h].request.entries)
    ensures g.commit == Max(f.commit, f.handlers[h].request.leaderCommit)
  {
    Stay(models, f);
    var merged := Extend(models, ops, f, f, MergeEntries(h));
    g := Extend(models, ops, f, merged, Lock(h, merged.commit));
  }

  lemma ListedBatchApplies(models: seq<Model>, ops: seq<CrudOp>, f: Node, h: nat)
    requires Inv(models, ops, f) && ListedApply(models, ops, f.log, f.commit)
    requires h < |f.handlers|
    requires f.handlers[h].phase == Applying(f.applied + 1, Unapplied(f.log, f.applied, f.commit), 0)
    ensures BatchApplies(models, ops, f.handlers[h].phase)
  {
    var last := f.applied + |f.handlers[h].phase.batch|;
    assert f.lock == Some(h) && HasPrefix(f.log, f.applied);
    assert HasPrefix(f.log, last);
    assert last > f.applied ==> last in f.log;
  }

  /** A received request can be served to a successful answer, if what is listed then applies. */
  lemma Serve(models: seq<Model>, ops: seq<CrudOp>, f: Node, h: nat) returns (g: Node)
    requires Inv(models, ops, f)
    requires h < |f.handlers| && f.handlers[h].phase.Received?
    requires ListedApply(models, ops, Merge(f.log, f.handlers[h].request.entries),
                         Max(f.commit, f.handlers[h].request.leaderCommit))
    ensures CanReach(models, f, g) && Inv(models, ops, g)
    ensures |g.handlers| == |f.handlers| && g.handlers[h].request == f.handlers[h].request
    ensures g.handlers[h].phase.Done? && g.handlers[h].phase.success
    ensures g.log == Merge(f.log, f.handlers[h].request.entries)
    ensures g.commit == Max(f.commit, f.handlers[h].request.leaderCommit)
  {
    var free := ReleaseLock(models, ops, f, h);
    var locked := MergeAndLock(models, ops, free, h);
    Then(models, f, free, locked);
    ListedBatchApplies(models, ops, locked, h);
    var finished := FinishBatch(models, ops, locked, h);
    Then(models, f, locked, finished);
    var released := Extend(models, ops, f, finished, Unlock(h));
    g := Extend(models, ops, f, released, Respond(h));
  }
}
