/**
  The leader with any number of write handlers in flight. The handler of log index i is
  `writes[i - 1]`: an index belongs to the one handler that reserved it. Reserving an index and
  inserting its entry are two steps, because the append counter and the entry list are not updated
  together; every await point of the handler is a step boundary.
 */
module Leader {
  import opened Wrappers
  import opened Crud
  import opened ReplicatedLog

  datatype Phase =
    | Reserved
    | Inserted
    | Queued
    | Replicating
    | Committed
    | CommitSeen
    | PriorApplied
    | Applying
    | Marking
    | Acknowledged
    | Failed

  /** `sent` are the entries of the handler's own request, `acks` the followers counted as successes. */
  datatype Write = Write(phase: Phase, sent: Log, acks: set<nat>, committed: bool)

  /** `known` holds each follower's last replicated index as the leader recorded it. */
  datatype Node = Node(
    log: Log,
    commit: nat,
    applied: nat,
    stores: Stores,
    lock: Option<nat>,
    writes: seq<Write>,
    queue: Log,
    known: seq<nat>,
    trace: seq<nat>)

  datatype Action =
    | Reserve(op: CrudOp)
    | Insert(i: nat)
    | Queue(i: nat)
    | Send(i: nat)
    | Collect(i: nat, peer: nat)
    | Commit(i: nat)
    | SeeCommit(i: nat)
    | SeeApplied(i: nat)
    | Lock(i: nat)
    | ApplyOk(i: nat)
    | Mark(i: nat)
    | ApplyFail(i: nat)
    | GiveUp(i: nat)
    | TakeBatch
    | Record(peer: nat, index: nat)

  function Fresh(models: seq<Model>, followers: nat): Node {
    Node(map[], 0, 0, EmptyStores(models), None, [], map[], seq(followers, _ => 0), [])
  }

  /** Successes needed from followers; with the leader's own vote they are a majority of all nodes. */
  function Needed(followers: nat): nat {
    Majority(followers + 1) - 1
  }

  predicate At(l: Node, i: nat, p: Phase) {
    1 <= i <= |l.writes| && l.writes[i - 1].phase == p
  }

  function SetPhase(l: Node, i: nat, p: Phase): Node
    requires 1 <= i <= |l.writes|
  {
    l.(writes := l.writes[i - 1 := l.writes[i - 1].(phase := p)])
  }

  /**
    Reserving takes the next index. A handler gives up when its replication or its durable write fails,
    or while it waits for earlier entries to commit.
   */
  ghost predicate Enabled(models: seq<Model>, ops: seq<CrudOp>, followers: nat, l: Node, a: Action) {
    match a
    case Reserve(_) => true
    case Insert(i) => At(l, i, Reserved) && i <= |ops|
    case Queue(i) => At(l, i, Inserted) && i in l.log
    case Send(i) => At(l, i, Inserted) || At(l, i, Queued)
    case Collect(i, peer) => At(l, i, Replicating) && peer < followers
    case Commit(i) => At(l, i, Replicating) && |l.writes[i - 1].acks| >= Needed(followers)
    case SeeCommit(i) => At(l, i, Committed) && l.commit >= i - 1
    case SeeApplied(i) => At(l, i, CommitSeen) && l.applied >= i - 1
    case Lock(i) => At(l, i, PriorApplied) && l.lock == None
    case ApplyOk(i) =>
      && At(l, i, Applying)
      && i <= |ops|
      && |l.stores| == |models|
      && ApplyCrud(models, l.stores, ops[i - 1]).Ok?
    case Mark(i) => At(l, i, Marking)
    case ApplyFail(i) => At(l, i, Applying)
    case GiveUp(i) => At(l, i, Replicating) || (At(l, i, Committed) && l.commit < i - 1)
    case TakeBatch => true
    case Record(peer, _) => peer < followers && peer < |l.known|
  }

  ghost function Do(models: seq<Model>, ops: seq<CrudOp>, followers: nat, l: Node, a: Action): Node
    requires Enabled(models, ops, followers, l, a)
  {
    match a
    case Reserve(_) => l.(writes := l.writes + [Write(Reserved, map[], {}, false)])
    case Insert(i) => SetPhase(l, i, Inserted).(log := l.log[i := ops[i - 1]])
    case Queue(i) => SetPhase(l, i, Queued).(queue := l.queue[i := l.log[i]])
    case Send(i) => l.(writes := l.writes[i - 1 := Write(Replicating, l.log, {}, false)])
    case Collect(i, peer) =>
      var w := l.writes[i - 1];
      l.(writes := l.writes[i - 1 := w.(acks := w.acks + {peer})])
    case Commit(i) =>
      var w := l.writes[i - 1];
      l.(writes := l.writes[i - 1 := w.(phase := Committed, committed := true)],
         commit := Max(l.commit, LastIndex(w.sent)))
    case SeeCommit(i) => SetPhase(l, i, CommitSeen)
    case SeeApplied(i) => SetPhase(l, i, PriorApplied)
    case Lock(i) => SetPhase(l, i, Applying).(lock := Some(i))
    case ApplyOk(i) =>
      SetPhase(l, i, Marking)
      .(stores := ApplyCrud(models, l.stores, ops[i - 1]).value, trace := l.trace + [i])
    case Mark(i) => SetPhase(l, i, Acknowledged).(applied := Max(l.applied, i), lock := None)
    case ApplyFail(i) => SetPhase(l, i, Failed).(lock := None)
    case GiveUp(i) => SetPhase(l, i, Failed)
    case TakeBatch => l.(queue := map[])
    case Record(peer, index) => l.(known := l.known[peer := index])
  }

  /** The history of operations grows when, and only when, an index is reserved. */
  function OpsAfter(ops: seq<CrudOp>, a: Action): seq<CrudOp> {
    if a.Reserve? then ops + [a.op] else ops
  }

  // ---------------------------------------------------------------- what every step keeps

  predicate LockHolderMarking(l: Node) {
    l.lock.Some? && At(l, l.lock.value, Marking)
  }

  function Reflected(l: Node): nat {
    if LockHolderMarking(l) then l.applied + 1 else l.applied
  }

  predicate NotYetSent(p: Phase) {
    p.Reserved? || p.Inserted? || p.Queued?
  }

  /** The handler has seen its predecessor applied and has not yet marked its own entry. */
  predicate AtItsTurn(p: Phase) {
    p.PriorApplied? || p.Applying? || p.Marking?
  }

  predicate PastCommit(p: Phase) {
    p.Committed? || p.CommitSeen? || AtItsTurn(p) || p.Acknowledged?
  }

  /** A handler commits only on a majority, and its acknowledgements come from followers. */
  ghost predicate VotesOk(followers: nat, w: Write) {
    && (NotYetSent(w.phase) ==> w.acks == {})
    && (NotYetSent(w.phase) || w.phase.Replicating? ==> !w.committed)
    && (PastCommit(w.phase) ==> w.committed)
    && (forall f :: f in w.acks ==> f < followers)
    && (w.committed ==> |w.acks| >= Needed(followers))
  }

  /** A handler's entry is in the log once inserted, and in what the handler sent. */
  ghost predicate EntriesOk(ops: seq<CrudOp>, log: Log, i: nat, w: Write) {
    && (i in log <==> !w.phase.Reserved?)
    && (!NotYetSent(w.phase) ==> i in w.sent && w.sent.Keys <= log.Keys && Agrees(w.sent, ops))
  }

  ghost predicate WriteOk(ops: seq<CrudOp>, followers: nat, l: Node, i: nat)
    requires 1 <= i <= |l.writes|
  {
    VotesOk(followers, l.writes[i - 1]) && EntriesOk(ops, l.log, i, l.writes[i - 1])
  }

  ghost predicate WritesOk(ops: seq<CrudOp>, followers: nat, l: Node) {
    && |l.writes| == |ops|
    && Agrees(l.log, ops)
    && Agrees(l.queue, ops)
    && l.queue.Keys <= l.log.Keys
    && forall i :: 1 <= i <= |l.writes| ==> WriteOk(ops, followers, l, i)
  }

  ghost predicate TurnOk(l: Node, i: nat)
    requires 1 <= i <= |l.writes|
  {
    var p := l.writes[i - 1].phase;
    && (p.Acknowledged? <==> i <= l.applied)
    && (AtItsTurn(p) ==> i == l.applied + 1)
    && (p.Applying? || p.Marking? ==> l.lock == Some(i))
  }

  /** Entry i is applied exactly when its handler is done, and handlers take their turn in order. */
  ghost predicate OrderOk(l: Node) {
    && l.applied <= |l.writes|
    && (forall i :: 1 <= i <= |l.writes| ==> TurnOk(l, i))
    && (l.lock.Some? ==> At(l, l.lock.value, Applying) || At(l, l.lock.value, Marking))
  }

  ghost predicate StateOk(models: seq<Model>, ops: seq<CrudOp>, l: Node) {
    && Reflected(l) <= |ops|
    && Replay(models, ops[..Reflected(l)]) == Ok(l.stores)
    && l.trace == UpTo(Reflected(l))
  }

  /** The commit index is the last index of some request that a majority acknowledged, and of no other more. */
  ghost predicate CommitOk(l: Node) {
    && (l.commit == 0 || exists i :: CommitSource(l, i))
    && forall i :: 1 <= i <= |l.writes| ==> CommitCovers(l, i)
  }

  ghost predicate CommitCovers(l: Node, i: nat)
    requires 1 <= i <= |l.writes|
  {
    l.writes[i - 1].committed ==> LastIndex(l.writes[i - 1].sent) <= l.commit
  }

  ghost predicate CommitSource(l: Node, i: nat) {
    1 <= i <= |l.writes| && l.writes[i - 1].committed && l.commit == LastIndex(l.writes[i - 1].sent)
  }

  ghost predicate Inv(models: seq<Model>, ops: seq<CrudOp>, followers: nat, l: Node) {
    && WritesOk(ops, followers, l)
    && OrderOk(l)
    && StateOk(models, ops, l)
    && CommitOk(l)
    && |l.known| == followers
  }

  lemma FreshInv(models: seq<Model>, followers: nat)
    ensures Inv(models, [], followers, Fresh(models, followers))
  {
    var none: seq<CrudOp> := [];
    assert none[..0] == [];
  }

  /** The handler a step belongs to, 0 when the step is not a handler's. */
  function Actor(a: Action): nat {
    match a
    case Reserve(_) => 0
    case TakeBatch => 0
    case Record(_, _) => 0
    case _ => a.i
  }

  /** A step changes no handler but its own. */
  lemma StepFrame(models: seq<Model>, ops: seq<CrudOp>, followers: nat, l: Node, a: Action, i: nat)
    requires Enabled(models, ops, followers, l, a)
    requires 1 <= i <= |l.writes| && i != Actor(a)
    ensures var m := Do(models, ops, followers, l, a);
            && |m.writes| >= |l.writes| && m.writes[i - 1] == l.writes[i - 1]
            && (i in m.log <==> i in l.log)
            && l.log.Keys <= m.log.Keys
  {
  }

  /** Past its send and up to its commit, a write keeps its votes through any change of phase. */
  lemma PhaseKeepsVotes(followers: nat, w: Write, p: Phase)
    requires VotesOk(followers, w)
    requires NotYetSent(p) ==> NotYetSent(w.phase)
    requires p.Replicating? ==> w.phase.Replicating?
    requires PastCommit(p) ==> PastCommit(w.phase)
    ensures VotesOk(followers, w.(phase := p))
  {
  }

  /** Actions that only move their handler from one phase to the next. */
  predicate OnlyMoves(a: Action) {
    !a.Reserve? && !a.Send? && !a.Collect? && !a.Commit? && !a.TakeBatch? && !a.Record?
  }

  lemma MoveEffect(models: seq<Model>, ops: seq<CrudOp>, followers: nat, l: Node, a: Action)
    requires Enabled(models, ops, followers, l, a) && OnlyMoves(a)
    ensures 1 <= a.i <= |l.writes|
    ensures var w, v := l.writes[a.i - 1], Do(models, ops, followers, l, a).writes[a.i - 1];
            && v == w.(phase := v.phase)
            && (NotYetSent(v.phase) ==> NotYetSent(w.phase))
            && !v.phase.Replicating?
            && (PastCommit(v.phase) ==> PastCommit(w.phase))
  {
  }

  lemma ActorKeepsVotes(models: seq<Model>, ops: seq<CrudOp>, followers: nat, l: Node, a: Action)
    requires Enabled(models, ops, followers, l, a) && Actor(a) != 0
    requires VotesOk(followers, l.writes[Actor(a) - 1])
    ensures VotesOk(followers, Do(models, ops, followers, l, a).writes[Actor(a) - 1])
  {
    if OnlyMoves(a) {
      MoveEffect(models, ops, followers, l, a);
      PhaseKeepsVotes(followers, l.writes[a.i - 1], Do(models, ops, followers, l, a).writes[a.i - 1].phase);
    }
  }

  lemma ActorKeepsEntries(models: seq<Model>, ops: seq<CrudOp>, followers: nat, l: Node, a: Action)
    requires Enabled(models, ops, followers, l, a) && Actor(a) != 0
    requires Agrees(l.log, ops) && EntriesOk(ops, l.log, Actor(a), l.writes[Actor(a) - 1])
    ensures var m := Do(models, ops, followers, l, a);
            EntriesOk(ops, m.log, Actor(a), m.writes[Actor(a) - 1])
  {
    var w, v := l.writes[a.i - 1], Do(models, ops, followers, l, a).writes[a.i - 1];
    assert a.Send? || v.sent == w.sent;
  }

  lemma StepKeepsLog(models: seq<Model>, ops: seq<CrudOp>, followers: nat, l: Node, a: Action)
    requires WritesOk(ops, followers, l) && Enabled(models, ops, followers, l, a)
    ensures var m := Do(models, ops, followers, l, a);
            var later := OpsAfter(ops, a);
            && |m.writes| == |later|
            && Agrees(m.log, later)
            && Agrees(m.queue, later)
            && m.queue.Keys <= m.log.Keys
            && l.log.Keys <= m.log.Keys
  {
  }

  lemma StepKeepsWrites(models: seq<Model>, ops: seq<CrudOp>, followers: nat, l: Node, a: Action)
    requires WritesOk(ops, followers, l) && Enabled(models, ops, followers, l, a)
    ensures WritesOk(OpsAfter(ops, a), followers, Do(models, ops, followers, l, a))
  {
    var m := Do(models, ops, followers, l, a);
    var later := OpsAfter(ops, a);
    StepKeepsLog(models, ops, followers, l, a);
    forall i | 1 <= i <= |m.writes|
      ensures WriteOk(later, followers, m, i)
    {
      if i > |l.writes| {
        assert i !in m.log;
      } else if i == Actor(a) {
        assert WriteOk(ops, followers, l, i);
        ActorKeepsVotes(models, ops, followers, l, a);
        ActorKeepsEntries(models, ops, followers, l, a);
      } else {
        assert WriteOk(ops, followers, l, i);
        StepFrame(models, ops, followers, l, a, i);
      }
    }
  }

  lemma ActorKeepsTurn(models: seq<Model>, ops: seq<CrudOp>, followers: nat, l: Node, a: Action)
    requires OrderOk(l) && Enabled(models, ops, followers, l, a)
    requires Actor(a) != 0
    ensures TurnOk(Do(models, ops, followers, l, a), Actor(a))
  {
    assert TurnOk(l, a.i);
  }

  lemma BystanderKeepsTurn(models: seq<Model>, ops: seq<CrudOp>, followers: nat, l: Node, a: Action, i: nat)
    requires OrderOk(l) && Enabled(models, ops, followers, l, a)
    requires 1 <= i <= |l.writes| && i != Actor(a)
    ensures |Do(models, ops, followers, l, a).writes| >= |l.writes|
    ensures TurnOk(Do(models, ops, followers, l, a), i)
  {
    assert TurnOk(l, i);
    StepFrame(models, ops, followers, l, a, i);
    if a.Mark? || a.ApplyFail? {
      assert TurnOk(l, a.i);
    }
  }

  /** What a handler sent stays as it was sent, and its acknowledgements only grow, one at a time. */
  ghost predicate SentKept(l: Node, m: Node, a: Action) {
    && |l.writes| <= |m.writes|
    && forall i :: 1 <= i <= |l.writes| ==> WriteKept(l, m, a, i)
  }

  ghost predicate WriteKept(l: Node, m: Node, a: Action, i: nat)
    requires 1 <= i <= |l.writes| <= |m.writes|
  {
    var w, v := l.writes[i - 1], m.writes[i - 1];
    && (NotYetSent(w.phase) && w.acks == {} ==> v.acks == {})
    && (!NotYetSent(w.phase) ==>
          && !NotYetSent(v.phase)
          && v.sent == w.sent
          && (forall p :: p in v.acks && p !in w.acks ==> a == Collect(i, p)))
  }

  lemma StepKeepsSent(models: seq<Model>, ops: seq<CrudOp>, followers: nat, l: Node, a: Action)
    requires Enabled(models, ops, followers, l, a)
    ensures SentKept(l, Do(models, ops, followers, l, a), a)
  {
    var m := Do(models, ops, followers, l, a);
    forall i | 1 <= i <= |l.writes|
      ensures |l.writes| <= |m.writes| && WriteKept(l, m, a, i)
    {
      if i != Actor(a) {
        StepFrame(models, ops, followers, l, a, i);
      }
    }
  }

  /** A write is sent by its own Send and by nothing else. */
  lemma SentOnlyBySend(models: seq<Model>, ops: seq<CrudOp>, followers: nat, l: Node, a: Action, i: nat)
    requires Enabled(models, ops, followers, l, a)
    requires 1 <= i <= |Do(models, ops, followers, l, a).writes|
    requires !NotYetSent(Do(models, ops, followers, l, a).writes[i - 1].phase)
    ensures i <= |l.writes| && (!NotYetSent(l.writes[i - 1].phase) || a == Send(i))
  {
    if i <= |l.writes| && i != Actor(a) {
      StepFrame(models, ops, followers, l, a, i);
    }
  }

  lemma StepKeepsOrder(models: seq<Model>, ops: seq<CrudOp>, followers: nat, l: Node, a: Action)
    requires OrderOk(l) && Enabled(models, ops, followers, l, a)
    ensures OrderOk(Do(models, ops, followers, l, a))
  {
    var m := Do(models, ops, followers, l, a);
    forall i | 1 <= i <= |m.writes|
      ensures TurnOk(m, i)
    {
      if i > |l.writes| {
      } else if i == Actor(a) {
        ActorKeepsTurn(models, ops, followers, l, a);
      } else {
        BystanderKeepsTurn(models, ops, followers, l, a, i);
      }
    }
    if Actor(a) != 0 {
      assert TurnOk(l, a.i);
    }
  }

  /** Only apply, mark and failure steps touch what the stores reflect. */
  lemma StepKeepsReflected(models: seq<Model>, ops: seq<CrudOp>, followers: nat, l: Node, a: Action)
    requires OrderOk(l) && Enabled(models, ops, followers, l, a)
    ensures a.ApplyOk? ==> Reflected(l) == l.applied == a.i - 1
    ensures Reflected(Do(models, ops, followers, l, a)) == Reflected(l) + (if a.ApplyOk? then 1 else 0)
  {
    if Actor(a) != 0 {
      assert TurnOk(l, a.i);
    }
    if l.lock.Some? {
      assert TurnOk(l, l.lock.value);
    }
  }

  lemma StoresAfter(models: seq<Model>, ops: seq<CrudOp>, followers: nat, l: Node, a: Action)
    requires Enabled(models, ops, followers, l, a)
    ensures var m := Do(models, ops, followers, l, a);
            if a.ApplyOk?
            then Ok(m.stores) == ApplyCrud(models, l.stores, ops[a.i - 1]) && m.trace == l.trace + [a.i]
            else m.stores == l.stores && m.trace == l.trace
  {
  }

  lemma StepKeepsState(models: seq<Model>, ops: seq<CrudOp>, followers: nat, l: Node, a: Action)
    requires OrderOk(l) && |l.writes| == |ops| && StateOk(models, ops, l)
    requires Enabled(models, ops, followers, l, a)
    ensures StateOk(models, OpsAfter(ops, a), Do(models, ops, followers, l, a))
  {
    StepKeepsReflected(models, ops, followers, l, a);
    StoresAfter(models, ops, followers, l, a);
    StateFollows(models, ops, OpsAfter(ops, a), l, Do(models, ops, followers, l, a), a);
  }

  lemma StateFollows(models: seq<Model>, ops: seq<CrudOp>, later: seq<CrudOp>, l: Node, m: Node, a: Action)
    requires StateOk(models, ops, l) && ops <= later
    requires Reflected(m) == Reflected(l) + (if a.ApplyOk? then 1 else 0)
    requires a.ApplyOk? ==>
               && 1 <= a.i <= |ops| && |l.stores| == |models| && Reflected(l) == a.i - 1
               && Ok(m.stores) == ApplyCrud(models, l.stores, ops[a.i - 1]) && m.trace == l.trace + [a.i]
    requires !a.ApplyOk? ==> m.stores == l.stores && m.trace == l.trace
    ensures StateOk(models, later, m)
  {
    assert later[..Reflected(l)] == ops[..Reflected(l)];
    if a.ApplyOk? {
      ReplayNext(models, later, Reflected(l));
      assert UpTo(a.i - 1) + [a.i] == UpTo(a.i);
    }
  }

  /** A committed write stays committed, with the same request. */
  lemma CommittedKept(models: seq<Model>, ops: seq<CrudOp>, followers: nat, l: Node, a: Action, i: nat)
    requires Enabled(models, ops, followers, l, a)
    requires 1 <= i <= |l.writes| && VotesOk(followers, l.writes[i - 1]) && l.writes[i - 1].committed
    ensures var m := Do(models, ops, followers, l, a);
            |m.writes| >= i && m.writes[i - 1].committed && m.writes[i - 1].sent == l.writes[i - 1].sent
  {
    if i != Actor(a) {
      StepFrame(models, ops, followers, l, a, i);
    }
  }

  lemma CommitIndexAfter(models: seq<Model>, ops: seq<CrudOp>, followers: nat, l: Node, a: Action)
    requires Enabled(models, ops, followers, l, a)
    ensures !a.Commit? ==> Do(models, ops, followers, l, a).commit == l.commit
    ensures a.Commit? ==> Do(models, ops, followers, l, a).commit == Max(l.commit, LastIndex(l.writes[a.i - 1].sent))
  {
  }

  lemma CommitBecomesSource(models: seq<Model>, ops: seq<CrudOp>, followers: nat, l: Node, a: Action)
    requires Enabled(models, ops, followers, l, a) && a.Commit?
    requires LastIndex(l.writes[a.i - 1].sent) > l.commit
    ensures CommitSource(Do(models, ops, followers, l, a), a.i)
  {
  }

  lemma CoverKept(models: seq<Model>, ops: seq<CrudOp>, followers: nat, l: Node, a: Action, i: nat)
    requires WritesOk(ops, followers, l) && Enabled(models, ops, followers, l, a)
    requires 1 <= i <= |Do(models, ops, followers, l, a).writes|
    requires i <= |l.writes| ==> CommitCovers(l, i)
    ensures CommitCovers(Do(models, ops, followers, l, a), i)
  {
    CommitIndexAfter(models, ops, followers, l, a);
    if i <= |l.writes| {
      assert WriteOk(ops, followers, l, i);
      if i != Actor(a) {
        StepFrame(models, ops, followers, l, a, i);
      }
    }
  }

  lemma StepKeepsCommit(models: seq<Model>, ops: seq<CrudOp>, followers: nat, l: Node, a: Action)
    requires Inv(models, ops, followers, l) && Enabled(models, ops, followers, l, a)
    ensures CommitOk(Do(models, ops, followers, l, a))
  {
    var m := Do(models, ops, followers, l, a);
    forall i | 1 <= i <= |m.writes|
      ensures CommitCovers(m, i)
    {
      CoverKept(models, ops, followers, l, a, i);
    }
    SourceKept(models, ops, followers, l, a);
  }

  lemma SourceKept(models: seq<Model>, ops: seq<CrudOp>, followers: nat, l: Node, a: Action)
    requires Inv(models, ops, followers, l) && Enabled(models, ops, followers, l, a)
    ensures var m := Do(models, ops, followers, l, a); m.commit == 0 || exists i :: CommitSource(m, i)
  {
    var m := Do(models, ops, followers, l, a);
    CommitIndexAfter(models, ops, followers, l, a);
    if a.Commit? && m.commit != l.commit {
      CommitBecomesSource(models, ops, followers, l, a);
    } else if l.commit != 0 {
      var i: nat :| CommitSource(l, i);
      assert WriteOk(ops, followers, l, i);
      CommittedKept(models, ops, followers, l, a, i);
      assert CommitSource(m, i);
    }
  }

  /** Every step of every write handler, in any interleaving, keeps the leader's invariant. */
  lemma StepKeepsInv(models: seq<Model>, ops: seq<CrudOp>, followers: nat, l: Node, a: Action)
    requires Inv(models, ops, followers, l) && Enabled(models, ops, followers, l, a)
    ensures Inv(models, OpsAfter(ops, a), followers, Do(models, ops, followers, l, a))
  {
    StepKeepsWrites(models, ops, followers, l, a);
    StepKeepsOrder(models, ops, followers, l, a);
    StepKeepsState(models, ops, followers, l, a);
    StepKeepsCommit(models, ops, followers, l, a);
  }

  // ---------------------------------------------------------------- leader order

  /**
    Whatever order replications and commits finish in, entries are applied in strict index order,
    each at most once, and the handler that applies entry i finds `applied` at exactly i - 1.
   */
  lemma AppliesInIndexOrder(models: seq<Model>, ops: seq<CrudOp>, followers: nat, l: Node, i: nat)
    requires Inv(models, ops, followers, l) && Enabled(models, ops, followers, l, ApplyOk(i))
    ensures l.applied == i - 1
    ensures l.trace == UpTo(i - 1) && Do(models, ops, followers, l, ApplyOk(i)).trace == UpTo(i)
    ensures forall k :: 0 <= k < i - 1 ==> l.writes[k].phase.Acknowledged?
  {
    assert TurnOk(l, i);
    StepKeepsReflected(models, ops, followers, l, ApplyOk(i));
    StepKeepsState(models, ops, followers, l, ApplyOk(i));
    forall k | 0 <= k < i - 1
      ensures l.writes[k].phase.Acknowledged?
    {
      assert TurnOk(l, k + 1);
    }
  }

  /**
    A handler that has committed never waits for earlier entries to commit: its own commit index is at
    least its own entry, and so the wait for commits ends at once and cannot time out.
   */
  lemma CommitWaitNeverWaits(models: seq<Model>, ops: seq<CrudOp>, followers: nat, l: Node, i: nat)
    requires Inv(models, ops, followers, l) && At(l, i, Committed)
    ensures l.commit >= i
    ensures Enabled(models, ops, followers, l, SeeCommit(i)) && !Enabled(models, ops, followers, l, GiveUp(i))
  {
    assert WriteOk(ops, followers, l, i) && CommitCovers(l, i);
  }

  /** No two handlers are ever past the wait for their predecessor at the same time. */
  lemma TurnsAreExclusive(models: seq<Model>, ops: seq<CrudOp>, followers: nat, l: Node, i: nat, j: nat)
    requires Inv(models, ops, followers, l)
    requires 1 <= i <= |l.writes| && AtItsTurn(l.writes[i - 1].phase)
    requires 1 <= j <= |l.writes| && AtItsTurn(l.writes[j - 1].phase)
    ensures i == j
  {
    assert TurnOk(l, i) && TurnOk(l, j);
  }

  /**
    A handler that gave up or failed stops the leader for good: no step ever applies its entry or a
    later one.
   */
  lemma FailedWriteBlocksLaterOnes(
      models: seq<Model>, ops: seq<CrudOp>, followers: nat, l: Node, a: Action, i: nat)
    requires Inv(models, ops, followers, l) && Enabled(models, ops, followers, l, a)
    requires At(l, i, Failed)
    ensures At(Do(models, ops, followers, l, a), i, Failed)
    ensures Do(models, ops, followers, l, a).applied < i
  {
    StepKeepsInv(models, ops, followers, l, a);
    assert TurnOk(Do(models, ops, followers, l, a), i);
  }
}
