/**
  A follower with any number of append handlers in flight. Each handler merges its request into the
  log without the apply lock, then takes the lock, lists the unapplied entries, applies them one by
  one, releases the lock and answers. Every await point of the handler is a step boundary.
 */
module Follower {
  import opened Wrappers
  import opened Crud
  import opened ReplicatedLog

  /** Which sender of the leader built a request. */
  datatype Source = FromWrite(index: nat) | Notify | CatchUp(peer: nat) | Batch

  datatype Request = Request(source: Source, entries: Log, leaderCommit: nat)

  /** `at` is the commit index of the node right after the handler's own merge. */
  datatype Phase =
    | Received
    | Merged(at: nat)
    | Applying(first: nat, batch: seq<CrudOp>, done: nat)
    | Marking(first: nat, batch: seq<CrudOp>, done: nat)
    | Released(success: bool)
    | Done(success: bool, lastIndex: nat)

  datatype Handler = Handler(request: Request, phase: Phase)

  /** `trace` is a history variable: the indices of the entries applied so far, in order. */
  datatype Node = Node(
    log: Log,
    commit: nat,
    applied: nat,
    stores: Stores,
    lock: Option<nat>,
    handlers: seq<Handler>,
    trace: seq<nat>)

  datatype Action =
    | Receive(request: Request)
    | MergeEntries(h: nat)
    | Lock(h: nat, seen: nat)
    | ApplyOk(h: nat)
    | Mark(h: nat)
    | ApplyFail(h: nat)
    | Unlock(h: nat)
    | Respond(h: nat)

  function Fresh(models: seq<Model>): Node {
    Node(map[], 0, 0, EmptyStores(models), None, [], [])
  }

  predicate InApply(p: Phase) {
    p.Applying? || p.Marking?
  }

  /**
    An apply may fail at any time; a failed apply leaves the stores alone. The commit index a handler
    lists by is read before the entries are, so it may be out of date, though never older than right
    after the handler's own merge.
   */
  ghost predicate Enabled(models: seq<Model>, f: Node, a: Action) {
    match a
    case Receive(_) => true
    case MergeEntries(h) => h < |f.handlers| && f.handlers[h].phase.Received?
    case Lock(h, seen) =>
      && h < |f.handlers|
      && f.handlers[h].phase.Merged?
      && f.lock == None
      && f.handlers[h].phase.at <= seen <= f.commit
    case ApplyOk(h) =>
      && h < |f.handlers|
      && f.handlers[h].phase.Applying?
      && f.handlers[h].phase.done < |f.handlers[h].phase.batch|
      && |f.stores| == |models|
      && ApplyCrud(models, f.stores, f.handlers[h].phase.batch[f.handlers[h].phase.done]).Ok?
    case Mark(h) => h < |f.handlers| && f.handlers[h].phase.Marking?
    case ApplyFail(h) =>
      && h < |f.handlers|
      && f.handlers[h].phase.Applying?
      && f.handlers[h].phase.done < |f.handlers[h].phase.batch|
    case Unlock(h) =>
      && h < |f.handlers|
      && f.handlers[h].phase.Applying?
      && f.handlers[h].phase.done == |f.handlers[h].phase.batch|
    case Respond(h) => h < |f.handlers| && f.handlers[h].phase.Released?
  }

  function SetPhase(f: Node, h: nat, p: Phase): Node
    requires h < |f.handlers|
  {
    f.(handlers := f.handlers[h := f.handlers[h].(phase := p)])
  }

  ghost function Do(models: seq<Model>, f: Node, a: Action): Node
    requires Enabled(models, f, a)
  {
    match a
    case Receive(r) => f.(handlers := f.handlers + [Handler(r, Received)])
    case MergeEntries(h) =>
      var r := f.handlers[h].request;
      var commit := Max(f.commit, r.leaderCommit);
      SetPhase(f, h, Merged(commit)).(log := Merge(f.log, r.entries), commit := commit)
    case Lock(h, seen) =>
      SetPhase(f, h, Applying(f.applied + 1, Unapplied(f.log, f.applied, seen), 0)).(lock := Some(h))
    case ApplyOk(h) =>
      var p := f.handlers[h].phase;
      SetPhase(f, h, Marking(p.first, p.batch, p.done))
      .(stores := ApplyCrud(models, f.stores, p.batch[p.done]).value,
        trace := f.trace + [p.first + p.done])
    case Mark(h) =>
      var p := f.handlers[h].phase;
      SetPhase(f, h, Applying(p.first, p.batch, p.done + 1)).(applied := Max(f.applied, p.first + p.done))
    case ApplyFail(h) => SetPhase(f, h, Released(false)).(lock := None)
    case Unlock(h) => SetPhase(f, h, Released(true)).(lock := None)
    case Respond(h) => SetPhase(f, h, Done(f.handlers[h].phase.success, LastIndex(f.log)))
  }

  // ---------------------------------------------------------------- what every step keeps

  ghost predicate RequestOk(ops: seq<CrudOp>, r: Request) {
    && Agrees(r.entries, ops)
    && r.leaderCommit <= |ops|
  }

  predicate LockHolderMarking(f: Node) {
    f.lock.Some? && f.lock.value < |f.handlers| && f.handlers[f.lock.value].phase.Marking?
  }

  /** Number of entries the stores reflect: one more than `applied` between an apply and its mark. */
  function Reflected(f: Node): nat {
    if LockHolderMarking(f) then f.applied + 1 else f.applied
  }

  /** What a handler will have achieved by the time it reports success. */
  ghost predicate Covers(r: Request, reach: int) {
    forall c: nat :: c <= r.leaderCommit && HasPrefix(r.entries, c) ==> c <= reach
  }

  ghost predicate BatchOk(f: Node, first: nat, batch: seq<CrudOp>, done: nat) {
    && first >= 1
    && f.applied + 1 == first + done
    && done <= |batch|
    && first + |batch| <= f.commit + 1
    && forall i :: first <= i < first + |batch| ==> i in f.log && f.log[i] == batch[i - first]
  }

  ghost predicate PhaseOk(f: Node, r: Request, p: Phase) {
    && (!p.Received? ==> r.entries.Keys <= f.log.Keys && r.leaderCommit <= f.commit)
    && (p.Merged? ==> r.leaderCommit <= p.at <= f.commit)
    && (InApply(p) ==> BatchOk(f, p.first, p.batch, p.done) && Covers(r, p.first + |p.batch| - 1))
    && (p.Marking? ==> p.done < |p.batch|)
    && ((p.Released? || p.Done?) && p.success ==> Covers(r, f.applied))
    && (p.Done? ==> LastIndex(r.entries) <= p.lastIndex <= LastIndex(f.log))
  }

  ghost predicate HandlersOk(ops: seq<CrudOp>, f: Node) {
    && (forall h :: 0 <= h < |f.handlers| ==> RequestOk(ops, f.handlers[h].request))
    && (forall h :: 0 <= h < |f.handlers| ==> PhaseOk(f, f.handlers[h].request, f.handlers[h].phase))
  }

  ghost predicate LockOk(f: Node) {
    && (f.lock.Some? ==> f.lock.value < |f.handlers| && InApply(f.handlers[f.lock.value].phase))
    && (forall h :: 0 <= h < |f.handlers| && InApply(f.handlers[h].phase) ==> f.lock == Some(h))
  }

  ghost predicate StateOk(models: seq<Model>, ops: seq<CrudOp>, f: Node) {
    && Agrees(f.log, ops)
    && HasPrefix(f.log, Reflected(f))
    && f.applied <= f.commit
    && Reflected(f) <= |ops|
    && Replay(models, ops[..Reflected(f)]) == Ok(f.stores)
    && f.trace == UpTo(Reflected(f))
  }

  ghost predicate Inv(models: seq<Model>, ops: seq<CrudOp>, f: Node) {
    LockOk(f) && HandlersOk(ops, f) && StateOk(models, ops, f)
  }

  /** Nothing a node has stored, applied or answered is ever taken back. */
  ghost predicate Grows(f: Node, g: Node) {
    && f.log.Keys <= g.log.Keys
    && f.applied <= g.applied
    && f.trace <= g.trace
    && |f.handlers| <= |g.handlers|
    && forall h :: 0 <= h < |f.handlers| ==>
         && g.handlers[h].request == f.handlers[h].request
         && (f.handlers[h].phase.Done? ==> g.handlers[h].phase == f.handlers[h].phase)
  }

  lemma FreshInv(models: seq<Model>, ops: seq<CrudOp>)
    ensures Inv(models, ops, Fresh(models))
  {
    assert ops[..0] == [];
  }

  /** New operations at the end of the history do not disturb a follower. */
  lemma InvExtends(models: seq<Model>, ops: seq<CrudOp>, op: CrudOp, f: Node)
    requires Inv(models, ops, f)
    ensures Inv(models, ops + [op], f)
  {
    assert (ops + [op])[..Reflected(f)] == ops[..Reflected(f)];
    forall h | 0 <= h < |f.handlers|
      ensures RequestOk(ops + [op], f.handlers[h].request)
    {
      assert RequestOk(ops, f.handlers[h].request);
    }
  }

  /** A handler's obligations survive any growth of the node around it. */
  lemma PhaseOkGrows(f: Node, g: Node, r: Request, p: Phase)
    requires PhaseOk(f, r, p) && !InApply(p)
    requires f.log.Keys <= g.log.Keys && f.commit <= g.commit && f.applied <= g.applied
    ensures PhaseOk(g, r, p)
  {
    LastIndexMonotone(f.log, g.log);
  }

  lemma StepGrows(models: seq<Model>, ops: seq<CrudOp>, f: Node, a: Action)
    requires Inv(models, ops, f) && Enabled(models, f, a)
    ensures Grows(f, Do(models, f, a)) && f.commit <= Do(models, f, a).commit
  {
  }

  function Arrived(a: Action): set<Request> {
    if a.Receive? then {a.request} else {}
  }

  /** Old handlers keep their requests; a new handler serves a request that just arrived. */
  ghost predicate RequestsFrom(f: Node, g: Node, arrived: set<Request>) {
    && |f.handlers| <= |g.handlers|
    && (forall h :: 0 <= h < |f.handlers| ==> g.handlers[h].request == f.handlers[h].request)
    && (forall h :: |f.handlers| <= h < |g.handlers| ==> g.handlers[h].request in arrived)
  }

  lemma StepKeepsRequests(models: seq<Model>, f: Node, a: Action)
    requires Enabled(models, f, a)
    ensures RequestsFrom(f, Do(models, f, a), Arrived(a))
  {
  }

  lemma StepKeepsLock(models: seq<Model>, ops: seq<CrudOp>, f: Node, a: Action)
    requires Inv(models, ops, f) && Enabled(models, f, a)
    ensures LockOk(Do(models, f, a))
  {
    if a.Unlock? || a.ApplyFail? || a.Lock? || a.ApplyOk? || a.Mark? {
      assert a.Lock? || InApply(f.handlers[a.h].phase);
    }
  }

  /** What a step changes of log, stores and progress, by kind of step. */
  lemma StepEffect(models: seq<Model>, f: Node, a: Action)
    requires LockOk(f) && Enabled(models, f, a)
    ensures var g := Do(models, f, a);
            && g.log == (if a.MergeEntries? then Merge(f.log, f.handlers[a.h].request.entries) else f.log)
            && (!a.ApplyOk? ==> g.stores == f.stores && g.trace == f.trace)
            && (a.ApplyOk? ==> LockHolderMarking(g) && g.applied == f.applied && !LockHolderMarking(f))
            && (a.Mark? ==> LockHolderMarking(f) && !LockHolderMarking(g))
            && (!a.ApplyOk? && !a.Mark? ==> LockHolderMarking(g) == LockHolderMarking(f) && g.applied == f.applied)
  {
    if a.ApplyOk? || a.Mark? || a.ApplyFail? || a.Unlock? {
      assert InApply(f.handlers[a.h].phase);
    }
  }

  lemma MergeKeepsState(models: seq<Model>, ops: seq<CrudOp>, f: Node, h: nat)
    requires Inv(models, ops, f) && Enabled(models, f, MergeEntries(h))
    ensures StateOk(models, ops, Do(models, f, MergeEntries(h)))
  {
    StepEffect(models, f, MergeEntries(h));
    assert RequestOk(ops, f.handlers[h].request);
    MergeAgrees(f.log, f.handlers[h].request.entries, ops);
  }

  /** The entry a handler is about to apply, or to mark, is the one right after `applied`. */
  lemma CurrentEntry(models: seq<Model>, ops: seq<CrudOp>, f: Node, h: nat)
    requires Inv(models, ops, f) && h < |f.handlers| && InApply(f.handlers[h].phase)
    requires f.handlers[h].phase.done < |f.handlers[h].phase.batch|
    ensures var p := f.handlers[h].phase;
            && p.first + p.done == f.applied + 1
            && f.applied < |ops| && p.batch[p.done] == ops[f.applied]
            && f.applied + 1 in f.log
  {
    var p := f.handlers[h].phase;
    assert PhaseOk(f, f.handlers[h].request, p);
    assert f.applied + 1 in f.log;
  }

  lemma ApplyKeepsState(models: seq<Model>, ops: seq<CrudOp>, f: Node, h: nat)
    requires Inv(models, ops, f) && Enabled(models, f, ApplyOk(h))
    ensures StateOk(models, ops, Do(models, f, ApplyOk(h)))
  {
    StepEffect(models, f, ApplyOk(h));
    CurrentEntry(models, ops, f, h);
    ReplayNext(models, ops, f.applied);
    assert UpTo(f.applied) + [f.applied + 1] == UpTo(f.applied + 1);
  }

  lemma StepKeepsState(models: seq<Model>, ops: seq<CrudOp>, f: Node, a: Action)
    requires Inv(models, ops, f) && Enabled(models, f, a)
    ensures StateOk(models, ops, Do(models, f, a))
  {
    if a.MergeEntries? {
      MergeKeepsState(models, ops, f, a.h);
    } else if a.ApplyOk? {
      ApplyKeepsState(models, ops, f, a.h);
    } else {
      StepEffect(models, f, a);
      if a.Mark? {
        assert PhaseOk(f, f.handlers[a.h].request, f.handlers[a.h].phase);
        CurrentEntry(models, ops, f, a.h);
      }
    }
  }

  /** The batch listed under the lock covers what the handler's own request covers. */
  lemma LockedBatchCovers(f: Node, r: Request, seen: nat)
    requires r.entries.Keys <= f.log.Keys && r.leaderCommit <= seen
    ensures Covers(r, f.applied + |Unapplied(f.log, f.applied, seen)|)
  {
    forall c: nat | c <= r.leaderCommit && HasPrefix(r.entries, c)
      ensures c <= f.applied + |Unapplied(f.log, f.applied, seen)|
    {
      assert HasPrefix(f.log, c);
      UnappliedReaches(f.log, f.applied, seen, c);
    }
  }

  /**
    What is listed under the lock are the entries right after the applied one, none beyond the commit
    index that was read, and all of them up to there or to the first hole.
   */
  lemma LockLists(models: seq<Model>, f: Node, h: nat, seen: nat)
    requires Enabled(models, f, Lock(h, seen))
    ensures var p := Do(models, f, Lock(h, seen)).handlers[h].phase;
            && p.Applying? && p.first == f.applied + 1 && p.done == 0
            && (p.batch == [] || f.applied + |p.batch| <= seen)
            && (forall i :: f.applied < i <= f.applied + |p.batch| ==> i in f.log && f.log[i] == p.batch[i - p.first])
            && (f.applied + |p.batch| < seen ==> f.applied + |p.batch| + 1 !in f.log)
  {
  }

  ghost predicate HandlerOk(f: Node, h: nat) {
    h < |f.handlers| && PhaseOk(f, f.handlers[h].request, f.handlers[h].phase)
  }

  lemma MergeKeepsPhase(models: seq<Model>, f: Node, h: nat)
    requires HandlerOk(f, h) && Enabled(models, f, MergeEntries(h))
    ensures HandlerOk(Do(models, f, MergeEntries(h)), h)
  {
  }

  lemma LockKeepsPhase(models: seq<Model>, f: Node, h: nat, seen: nat)
    requires HandlerOk(f, h) && f.applied <= f.commit && Enabled(models, f, Lock(h, seen))
    ensures HandlerOk(Do(models, f, Lock(h, seen)), h)
  {
    LockedBatchCovers(f, f.handlers[h].request, seen);
  }

  lemma ApplyKeepsPhase(models: seq<Model>, f: Node, h: nat)
    requires HandlerOk(f, h) && Enabled(models, f, ApplyOk(h))
    ensures HandlerOk(Do(models, f, ApplyOk(h)), h)
  {
  }

  lemma MarkKeepsPhase(models: seq<Model>, f: Node, h: nat)
    requires HandlerOk(f, h) && Enabled(models, f, Mark(h))
    ensures HandlerOk(Do(models, f, Mark(h)), h)
  {
  }

  lemma EndKeepsPhase(models: seq<Model>, f: Node, a: Action)
    requires a.ApplyFail? || a.Unlock? || a.Respond?
    requires HandlerOk(f, a.h) && Enabled(models, f, a)
    ensures HandlerOk(Do(models, f, a), a.h)
  {
    if a.Respond? {
      LastIndexMonotone(f.handlers[a.h].request.entries, f.log);
    }
  }

  /** The acting handler meets the obligations of its next phase. */
  lemma ActorKeepsPhase(models: seq<Model>, ops: seq<CrudOp>, f: Node, a: Action)
    requires Inv(models, ops, f) && Enabled(models, f, a) && !a.Receive?
    ensures HandlerOk(Do(models, f, a), a.h)
  {
    assert HandlerOk(f, a.h);
    match a
    case MergeEntries(h) => MergeKeepsPhase(models, f, h);
    case Lock(h, seen) => LockKeepsPhase(models, f, h, seen);
    case ApplyOk(h) => ApplyKeepsPhase(models, f, h);
    case Mark(h) => MarkKeepsPhase(models, f, h);
    case _ => EndKeepsPhase(models, f, a);
  }

  /** Every other handler keeps its obligations: the lock keeps the apply phases apart. */
  lemma BystanderKeepsPhase(models: seq<Model>, ops: seq<CrudOp>, f: Node, a: Action, h: nat)
    requires Inv(models, ops, f) && Enabled(models, f, a)
    requires h < |f.handlers| && (a.Receive? || h != a.h)
    ensures PhaseOk(Do(models, f, a), f.handlers[h].request, f.handlers[h].phase)
  {
    var r, p := f.handlers[h].request, f.handlers[h].phase;
    assert PhaseOk(f, r, p);
    StepGrows(models, ops, f, a);
    if InApply(p) {
      assert f.lock == Some(h);
      assert a.Receive? || a.MergeEntries? || a.Respond?;
      if a.MergeEntries? {
        assert forall i :: i in f.log ==> Merge(f.log, f.handlers[a.h].request.entries)[i] == f.log[i];
      }
    } else {
      PhaseOkGrows(f, Do(models, f, a), r, p);
    }
  }

  /** Every step of every handler, in any interleaving, keeps the follower's invariant. */
  lemma StepKeepsInv(models: seq<Model>, ops: seq<CrudOp>, f: Node, a: Action)
    requires Inv(models, ops, f) && Enabled(models, f, a)
    requires a.Receive? ==> RequestOk(ops, a.request)
    ensures Inv(models, ops, Do(models, f, a))
  {
    var g := Do(models, f, a);
    StepKeepsLock(models, ops, f, a);
    StepKeepsState(models, ops, f, a);
    forall h | 0 <= h < |g.handlers|
      ensures RequestOk(ops, g.handlers[h].request) && PhaseOk(g, g.handlers[h].request, g.handlers[h].phase)
    {
      if a.Receive? && h == |f.handlers| {
      } else if !a.Receive? && h == a.h {
        assert RequestOk(ops, f.handlers[h].request);
        ActorKeepsPhase(models, ops, f, a);
      } else {
        assert RequestOk(ops, f.handlers[h].request);
        BystanderKeepsPhase(models, ops, f, a, h);
      }
    }
  }

  // ---------------------------------------------------------------- exactly once, in order

  /**
    Entries are applied exactly once, in index order and without a gap, and the stores are the
    result of applying them in that order.
   */
  lemma AppliedExactlyOnce(models: seq<Model>, ops: seq<CrudOp>, f: Node)
    requires Inv(models, ops, f)
    ensures forall k :: 0 <= k < |f.trace| ==> f.trace[k] == k + 1
    ensures f.applied <= |f.trace| <= f.applied + 1
    ensures f.lock == None ==> |f.trace| == f.applied
    ensures |f.trace| <= |ops| && Replay(models, ops[..|f.trace|]) == Ok(f.stores)
    ensures forall i :: 1 <= i <= |f.trace| ==> i in f.log
  {
  }

  /**
    A failed entry stops the node just before it: `applied` stays at its predecessor, the handler
    reports failure, and no later entry can be applied before a retry gets past it.
   */
  lemma FailureStopsBeforeEntry(models: seq<Model>, ops: seq<CrudOp>, f: Node, h: nat)
    requires Inv(models, ops, f) && Enabled(models, f, ApplyFail(h))
    ensures var g := Do(models, f, ApplyFail(h));
            var p := f.handlers[h].phase;
            && g.applied == p.first + p.done - 1
            && g.stores == f.stores && g.trace == f.trace && g.log == f.log
            && g.lock == None && g.handlers[h].phase == Released(false)
  {
    var p := f.handlers[h].phase;
    assert InApply(p) && PhaseOk(f, f.handlers[h].request, p);
  }

  /** The next entry any handler of this node can apply is the one right after `applied`. */
  lemma NextApplyIsSuccessor(models: seq<Model>, ops: seq<CrudOp>, f: Node, h: nat)
    requires Inv(models, ops, f) && Enabled(models, f, ApplyOk(h))
    ensures Do(models, f, ApplyOk(h)).trace == f.trace + [f.applied + 1]
    ensures f.applied < |ops|
    ensures ApplyCrud(models, f.stores, ops[f.applied]) == Ok(Do(models, f, ApplyOk(h)).stores)
  {
    CurrentEntry(models, ops, f, h);
  }
}
