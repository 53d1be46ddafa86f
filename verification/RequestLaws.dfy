/**
  What each of the leader's four senders tells the followers: over runs, what a follower that serves
  the request knows and has applied, and that it can get there through this request alone.
 */
module RequestLaws {
  import opened Wrappers
  import opened Crud
  import opened ReplicatedLog
  import opened Cluster
  import opened Safety
  import opened CleanRuns
  import opened ClusterReach
  import opened Continuations
  import Rounds = FollowerRounds
  import Reachability
  import L = Leader
  import F = Follower

  predicate IsSender(step: Step) {
    step.Send? || step.Notify? || step.CatchUp? || step.TakeBatch?
  }

  /** The commit index the step is to tell: a write tells its own index, a notification what it committed. */
  ghost function Told(s: State, step: Step): nat
    requires Enabled(s, step) && IsSender(step)
  {
    match step
    case Send(i) => i
    case Notify(i) => LastIndex(s.leader.writes[i - 1].sent)
    case CatchUp(_, commit) => commit
    case TakeBatch => LastIndex(s.leader.queue)
  }

  /** The entries the step is to bring: the whole log, what the follower is missing, or the queue. */
  ghost predicate Brings(s: State, step: Step, y: nat) {
    match step
    case Send(_) => y in s.leader.log
    case Notify(_) => y in s.leader.log
    case CatchUp(peer, _) => y in s.leader.log && peer < |s.leader.known| && y > s.leader.known[peer]
    case TakeBatch => y in s.leader.queue
    case _ => false
  }

  /** The step is to bring every entry up to c. */
  ghost predicate BringsUpTo(s: State, step: Step, c: nat) {
    forall y: nat :: 1 <= y <= c ==> Brings(s, step, y)
  }

  predicate Reaches(step: Step, p: nat) {
    step.CatchUp? ==> p == step.peer
  }

  /** The follower has heard the commit index and stored the entries; success says it has applied what is told. */
  ghost predicate Informed(s: State, step: Step, f: F.Node, phase: F.Phase)
    requires Enabled(s, step) && IsSender(step)
  {
    && Told(s, step) <= f.commit
    && (forall y: nat :: Brings(s, step, y) ==> y in f.log && y <= |s.ops| && y >= 1 && f.log[y] == s.ops[y - 1])
    && (phase.Done? && phase.success ==>
          forall c: nat :: c <= Told(s, step) && BringsUpTo(s, step, c) ==> c <= f.applied && UpTo(c) <= f.trace)
  }

  /** Handler h of follower f serves the request and has merged it. */
  predicate HasMerged(f: F.Node, h: nat, r: F.Request) {
    h < |f.handlers| && f.handlers[h].request == r && !f.handlers[h].phase.Received?
  }

  /** Handler h of follower p serves the request, has merged it, and knows what the step was to tell. */
  ghost predicate Knows(s: State, step: Step, t: State, p: nat, h: nat, r: F.Request)
    requires Enabled(s, step) && IsSender(step) && p < |t.followers|
  {
    HasMerged(t.followers[p], h, r) ==> Informed(s, step, t.followers[p], t.followers[p].handlers[h].phase)
  }

  /** The request the step puts on the network. */
  ghost predicate Puts(s: State, step: Step, r: F.Request)
    requires Enabled(s, step) && IsSender(step)
  {
    && Do(s, step).net == s.net + {r}
    && r.leaderCommit == Told(s, step)
    && (forall y: nat :: y in r.entries <==> Brings(s, step, y))
    && (forall p: nat :: Deliverable(r, p) <==> Reaches(step, p))
  }

  lemma PutsOne(s: State, step: Step) returns (r: F.Request)
    requires Enabled(s, step) && IsSender(step)
    ensures Puts(s, step, r)
  {
    r := RequestOf(s, step).value;
  }

  lemma HandlerIsInformed(s: State, step: Step, r: F.Request, t: State, p: nat, h: nat)
    requires Inv(s) && Enabled(s, step) && IsSender(step) && Puts(s, step, r)
    requires Inv(t) && Later(s, t)
    requires p < |t.followers| && h < |t.followers[p].handlers|
    requires t.followers[p].handlers[h].request == r && !t.followers[p].handlers[h].phase.Received?
    ensures Informed(s, step, t.followers[p], t.followers[p].handlers[h].phase)
  {
    var f, phase := t.followers[p], t.followers[p].handlers[h].phase;
    assert F.Inv(t.models, t.ops, f) && F.PhaseOk(f, r, phase);
    StoresBrought(s, step, r, t, f);
    if phase.Done? && phase.success {
      forall c: nat | c <= Told(s, step) && BringsUpTo(s, step, c)
        ensures c <= f.applied && UpTo(c) <= f.trace
      {
        assert HasPrefix(r.entries, c);
      }
    }
  }

  lemma StoresBrought(s: State, step: Step, r: F.Request, t: State, f: F.Node)
    requires Inv(s) && Enabled(s, step) && IsSender(step) && Puts(s, step, r)
    requires Later(s, t) && F.Inv(t.models, t.ops, f) && r.entries.Keys <= f.log.Keys
    ensures forall y: nat :: Brings(s, step, y) ==> y in f.log && y <= |s.ops| && y >= 1 && f.log[y] == s.ops[y - 1]
  {
    forall y: nat | Brings(s, step, y)
      ensures y in f.log && y <= |s.ops| && y >= 1 && f.log[y] == s.ops[y - 1]
    {
      assert y in s.leader.log;
    }
  }

  /** The run has gone on from s, where the step put r on the network, to u. */
  ghost predicate SentBefore(s: State, step: Step, r: F.Request, u: State) {
    && Inv(s) && Inv(u) && Later(s, u)
    && Enabled(s, step) && IsSender(step) && Puts(s, step, r)
    && r in u.net
  }

  lemma SentOverRuns(
      models: seq<Model>, followers: nat, states: seq<State>, steps: seq<Step>, j: nat, k: nat)
      returns (r: F.Request)
    requires Run(models, followers, states, steps) && j < k <= |steps| && IsSender(steps[j])
    ensures SentBefore(states[j], steps[j], r, states[k]) && states[j + 1].net == states[j].net + {r}
  {
    RunStep(models, followers, states, steps, j);
    RunKeepsInv(models, followers, states, steps, j);
    RunKeepsInv(models, followers, states, steps, k);
    RunIsLater(models, followers, states, steps, j, k);
    NetIsKept(models, followers, states, steps, j + 1, k);
    r := PutsOne(states[j], steps[j]);
  }

  /**
    Over runs: every follower that serves the request a sender put on the network has heard the commit
    index the sender was to tell, has stored the entries it was to bring, and, if it answered success,
    has applied every prefix of them up to that commit index.
   */
  lemma SenderInforms(
      models: seq<Model>, followers: nat, states: seq<State>, steps: seq<Step>, j: nat, k: nat)
      returns (r: F.Request)
    requires Run(models, followers, states, steps) && j < k <= |steps| && IsSender(steps[j])
    ensures Enabled(states[j], steps[j]) && states[j + 1].net == states[j].net + {r}
    ensures forall p: nat, h: nat :: p < |states[k].followers| ==> Knows(states[j], steps[j], states[k], p, h, r)
  {
    r := SentOverRuns(models, followers, states, steps, j, k);
    forall p: nat, h: nat | p < |states[k].followers|
      ensures Knows(states[j], steps[j], states[k], p, h, r)
    {
      if HasMerged(states[k].followers[p], h, r) {
        HandlerIsInformed(states[j], steps[j], r, states[k], p, h);
      }
    }
  }

  lemma {:induction false} RunIsLater(
      models: seq<Model>, followers: nat, states: seq<State>, steps: seq<Step>, j: nat, k: nat)
    requires Run(models, followers, states, steps) && j <= k <= |steps|
    ensures Later(states[j], states[k])
    decreases k
  {
    if j < k {
      RunIsLater(models, followers, states, steps, j, k - 1);
      RunStep(models, followers, states, steps, k - 1);
      StepIsLater(states[k - 1], steps[k - 1]);
      LaterThen(states[j], states[k - 1], states[k]);
    }
  }

  lemma LaterThen(s: State, t: State, u: State)
    requires Later(s, t) && Later(t, u)
    ensures Later(s, u)
  {
  }

  /**
    A commit notification leaves every follower past the merge of its request at least at the commit
    index that write i's request committed, and its success answers have applied every prefix that the
    leader's log held in full, up to there.
   */
  lemma NotificationTellsCommit(
      models: seq<Model>, followers: nat, states: seq<State>, steps: seq<Step>, j: nat, k: nat, i: nat)
      returns (r: F.Request)
    requires Run(models, followers, states, steps) && j < k <= |steps| && steps[j] == Notify(i)
    ensures 1 <= i <= |states[j].leader.writes| && states[j + 1].net == states[j].net + {r}
    ensures LastIndex(states[j].leader.writes[i - 1].sent) <= states[j].leader.commit
    ensures forall p: nat, h: nat :: p < |states[k].followers| && HasMerged(states[k].followers[p], h, r) ==>
              && LastIndex(states[j].leader.writes[i - 1].sent) <= states[k].followers[p].commit
              && AnsweredUpTo(states[k].followers[p], h, states[j].leader.log,
                              LastIndex(states[j].leader.writes[i - 1].sent))
  {
    r := SenderInforms(models, followers, states, steps, j, k);
    RunKeepsInv(models, followers, states, steps, j);
    OnlyCommittedIsTold(states[j], steps[j]);
    forall p: nat, h: nat | p < |states[k].followers| && HasMerged(states[k].followers[p], h, r)
      ensures && LastIndex(states[j].leader.writes[i - 1].sent) <= states[k].followers[p].commit
              && AnsweredUpTo(states[k].followers[p], h, states[j].leader.log,
                              LastIndex(states[j].leader.writes[i - 1].sent))
    {
      assert Knows(states[j], steps[j], states[k], p, h, r);
      NotifiedMeans(states[j], i, states[k].followers[p], h);
    }
  }

  /** If handler h answered success, every prefix of the log up to index n has been applied. */
  ghost predicate AnsweredUpTo(f: F.Node, h: nat, log: Log, n: nat)
    requires h < |f.handlers|
  {
    f.handlers[h].phase.Done? && f.handlers[h].phase.success ==>
      forall c: nat :: c <= n && HasPrefix(log, c) ==> c <= f.applied
  }

  /** Notifications and catch-ups tell only what is committed, and a catch-up only what its follower lacks. */
  lemma OnlyCommittedIsTold(s: State, step: Step)
    requires Inv(s) && Enabled(s, step) && (step.Notify? || step.CatchUp?)
    ensures Told(s, step) <= s.leader.commit
    ensures step.CatchUp? ==> step.peer < |s.leader.known| && s.leader.known[step.peer] < Told(s, step)
  {
    if step.Notify? {
      assert L.WriteOk(s.ops, |s.followers|, s.leader, step.i) && L.CommitCovers(s.leader, step.i);
    }
  }

  lemma NotifiedMeans(s: State, i: nat, f: F.Node, h: nat)
    requires h < |f.handlers| && Enabled(s, Notify(i)) && Informed(s, Notify(i), f, f.handlers[h].phase)
    ensures LastIndex(s.leader.writes[i - 1].sent) <= f.commit
    ensures AnsweredUpTo(f, h, s.leader.log, LastIndex(s.leader.writes[i - 1].sent))
  {
    if f.handlers[h].phase.Done? && f.handlers[h].phase.success {
      forall c: nat | c <= LastIndex(s.leader.writes[i - 1].sent) && HasPrefix(s.leader.log, c)
        ensures c <= f.applied
      {
        assert BringsUpTo(s, Notify(i), c);
      }
    }
  }

  // ---------------------------------------------------------------- a request alone gets a follower there

  /** Follower q has been served, and nothing else has moved. */
  ghost predicate OnlyServed(s: State, t: State, p: nat) {
    && p < |s.followers| == |t.followers|
    && t == s.(followers := s.followers[p := t.followers[p]])
  }

  /** The follower knows what the step was to tell, and has applied every prefix it was brought, up to there. */
  ghost predicate CaughtUp(s: State, step: Step, f: F.Node)
    requires Enabled(s, step) && IsSender(step)
  {
    && Told(s, step) <= f.commit
    && (forall y: nat :: Brings(s, step, y) ==> y in f.log)
    && (forall c: nat :: c <= Told(s, step) && BringsUpTo(s, step, c) ==> c <= f.applied)
  }

  /**
    Through this one request, with the leader and all other followers unchanged, a follower for which
    everything applies gets to the commit index told, stores the entries brought, and applies every
    prefix of them up to there.
   */
  lemma RequestReaches(s: State, step: Step, r: F.Request, u: State, p: nat) returns (t: State)
    requires SentBefore(s, step, r, u) && Reaches(step, p)
    requires CanServe(u, p, s.leader.log, Told(s, step))
    ensures CanReach(u, t) && OnlyServed(u, t, p) && CaughtUp(s, step, t.followers[p])
  {
    LessCanServe(s, step, r, u, p);
    var g, h := Deliver(u, r, p);
    t := u.(followers := u.followers[p := g]);
    ReachIsLater(u, t);
    LaterThen(s, u, t);
    HandlerIsInformed(s, step, r, t, p, h);
  }

  /** What a sender brings is part of the leader's log. */
  lemma LessCanServe(s: State, step: Step, r: F.Request, u: State, p: nat)
    requires Inv(s) && Enabled(s, step) && IsSender(step) && Puts(s, step, r)
    requires CanServe(u, p, s.leader.log, Told(s, step))
    ensures CanServe(u, p, r.entries, r.leaderCommit)
  {
    var f := u.followers[p];
    forall y | y in r.entries
      ensures y in s.leader.log
    {
      assert Brings(s, step, y);
    }
    Rounds.LessIsListed(u.models, u.ops, Merge(f.log, s.leader.log), Max(f.commit, r.leaderCommit),
                        Merge(f.log, r.entries), Max(f.commit, r.leaderCommit));
  }

  lemma {:induction false} NetIsKept(
      models: seq<Model>, followers: nat, states: seq<State>, steps: seq<Step>, j: nat, k: nat)
    requires Run(models, followers, states, steps) && j <= k <= |steps|
    ensures states[j].net <= states[k].net
    decreases k
  {
    if j < k {
      NetIsKept(models, followers, states, steps, j, k - 1);
      RunStep(models, followers, states, steps, k - 1);
    }
  }

  /**
    Over runs: from every later state, whatever has happened in between, the request a sender put on the
    network can still bring a follower there, alone and with the leader unchanged.
   */
  lemma SenderReaches(
      models: seq<Model>, followers: nat, states: seq<State>, steps: seq<Step>, j: nat, k: nat, p: nat)
      returns (t: State)
    requires Run(models, followers, states, steps) && j < k <= |steps| && IsSender(steps[j])
    requires Reaches(steps[j], p) && Enabled(states[j], steps[j])
    requires CanServe(states[k], p, states[j].leader.log, Told(states[j], steps[j]))
    ensures CanReach(states[k], t) && OnlyServed(states[k], t, p)
    ensures CaughtUp(states[j], steps[j], t.followers[p])
  {
    var r := SentOverRuns(models, followers, states, steps, j, k);
    t := RequestReaches(states[j], steps[j], r, states[k], p);
  }

  /** A commit notification alone gets a follower for which everything applies to the committed index. */
  lemma NotificationReaches(
      models: seq<Model>, followers: nat, states: seq<State>, steps: seq<Step>, j: nat, k: nat, i: nat, p: nat)
      returns (t: State)
    requires Run(models, followers, states, steps) && j < k <= |steps| && steps[j] == Notify(i)
    requires 1 <= i <= |states[j].leader.writes|
    requires CanServe(states[k], p, states[j].leader.log, LastIndex(states[j].leader.writes[i - 1].sent))
    ensures CanReach(states[k], t) && OnlyServed(states[k], t, p)
    ensures LastIndex(states[j].leader.writes[i - 1].sent) <= t.followers[p].commit
    ensures forall c: nat :: (c <= LastIndex(states[j].leader.writes[i - 1].sent) &&
              HasPrefix(states[j].leader.log, c)) ==> c <= t.followers[p].applied
  {
    RunStep(models, followers, states, steps, j);
    t := SenderReaches(models, followers, states, steps, j, k, p);
    forall c: nat | c <= LastIndex(states[j].leader.writes[i - 1].sent) && HasPrefix(states[j].leader.log, c)
      ensures c <= t.followers[p].applied
    {
      assert BringsUpTo(states[j], Notify(i), c);
    }
  }

  // ---------------------------------------------------------------- the queue

  /** Entry y waits in the queue or has been sent in a batch. */
  ghost predicate QueuedOrSent(s: State, y: nat) {
    y in s.leader.queue || exists r :: r in s.net && r.source.Batch? && y in r.entries
  }

  ghost function Waiting(y: nat): State -> bool {
    (s: State) => QueuedOrSent(s, y)
  }

  lemma NextKeepsQueued(s: State, step: Step, y: nat)
    requires Enabled(s, step) && QueuedOrSent(s, y)
    ensures QueuedOrSent(Do(s, step), y)
  {
    var t := Do(s, step);
    if r :| r in s.net && r.source.Batch? && y in r.entries {
      assert r in t.net;
    } else if step.TakeBatch? {
      var batch := F.Request(F.Batch, s.leader.queue, LastIndex(s.leader.queue));
      assert batch in t.net;
    }
  }

  /** An entry that is queued for the batches is never lost: it waits in the queue or is on the network. */
  lemma QueuedIsSentInABatch(
      models: seq<Model>, followers: nat, states: seq<State>, steps: seq<Step>, j: nat, k: nat, i: nat)
    requires Run(models, followers, states, steps) && j < k <= |steps| && steps[j] == AtLeader(L.Queue(i))
    ensures QueuedOrSent(states[k], i)
    decreases k
  {
    if j + 1 == k {
      RunStep(models, followers, states, steps, j);
      assert i in states[k].leader.queue;
    } else {
      QueuedIsSentInABatch(models, followers, states, steps, j, k - 1, i);
      RunStep(models, followers, states, steps, k - 1);
      NextKeepsQueued(states[k - 1], steps[k - 1], i);
    }
  }

  /** A batch takes everything that waits, and is sent once. */
  lemma BatchEmptiesQueue(s: State)
    requires Enabled(s, TakeBatch)
    ensures Do(s, TakeBatch).leader.queue == map[] && !Enabled(Do(s, TakeBatch), TakeBatch)
  {
  }

  // ---------------------------------------------------------------- recorded progress

  /**
    Recording a success of a write's request or of a catch-up brings the recorded progress to the end of
    what was sent at least, and a catch-up thereby past the commit index it told, so that the same
    catch-up is not sent again.
   */
  lemma RecordMakesProgress(s: State, peer: nat, h: nat, index: nat)
    requires Inv(s) && Enabled(s, Record(peer, h, index))
    requires !s.followers[peer].handlers[h].request.source.Batch?
    ensures var r := s.followers[peer].handlers[h].request;
            var t := Do(s, Record(peer, h, index));
            && peer < |t.leader.known| && LastIndex(r.entries) <= t.leader.known[peer] == index
            && (r.source.CatchUp? ==> forall c: nat :: c <= r.leaderCommit ==> !Enabled(t, CatchUp(peer, c)))
            && (forall q :: 0 <= q < |s.leader.known| && q != peer ==> t.leader.known[q] == s.leader.known[q])
  {
    var f := s.followers[peer];
    assert F.PhaseOk(f, f.handlers[h].request, f.handlers[h].phase);
    assert InNet(s, f.handlers[h].request);
  }

  /**
    A follower's progress is recorded from a success of a write's request, with the last index the
    follower answered; from any answer to a catch-up, with the last index sent; from any answer to a
    batch, with an index sent; and never from a notification.
   */
  lemma RecordsIff(s: State, peer: nat, h: nat, index: nat)
    requires Inv(s) && peer < |s.followers| && h < |s.followers[peer].handlers|
    ensures var r, phase := s.followers[peer].handlers[h].request, s.followers[peer].handlers[h].phase;
            Enabled(s, Record(peer, h, index)) <==>
            && phase.Done?
            && (|| (r.source.FromWrite? && phase.success && index == phase.lastIndex)
                || (r.source.CatchUp? && index == LastIndex(r.entries))
                || (r.source.Batch? && index in r.entries))
  {
  }

  /** A behind follower can be caught up to any committed index it lacks, and to no other. */
  lemma CatchesUpIff(s: State, peer: nat, commit: nat)
    requires Inv(s)
    ensures Enabled(s, CatchUp(peer, commit)) <==>
            peer < |s.followers| && s.leader.known[peer] < commit <= s.leader.commit
  {
  }

  /** A committed write can be notified of at any time, and no other. */
  lemma NotifiesIff(s: State, i: nat)
    requires 1 <= i <= |s.leader.writes|
    ensures Enabled(s, Notify(i)) <==> s.leader.writes[i - 1].committed
  {
  }

  /** A stored entry can be queued until it is sent, and sent whether or not it was queued; a batch needs a queue. */
  lemma SendsIff(s: State, i: nat)
    requires Inv(s)
    ensures Enabled(s, AtLeader(L.Queue(i))) <==> L.At(s.leader, i, L.Inserted)
    ensures Enabled(s, Send(i)) <==> L.At(s.leader, i, L.Inserted) || L.At(s.leader, i, L.Queued)
    ensures Enabled(s, TakeBatch) <==> s.leader.queue != map[]
  {
    if L.At(s.leader, i, L.Inserted) {
      assert L.WriteOk(s.ops, |s.followers|, s.leader, i);
    }
  }

  /** An apply may fail wherever there is something to apply, on the leader and on every follower. */
  lemma FailsIff(s: State, i: nat, p: nat, h: nat)
    requires p < |s.followers| && h < |s.followers[p].handlers|
    ensures Enabled(s, AtLeader(L.ApplyFail(i))) <==> L.At(s.leader, i, L.Applying)
    ensures var phase := s.followers[p].handlers[h].phase;
            Enabled(s, AtFollower(p, F.ApplyFail(h))) <==> phase.Applying? && phase.done < |phase.batch|
  {
  }

  /** In a reachable state a handler gives up only while it waits for acknowledgements. */
  lemma GivesUpIff(s: State, i: nat)
    requires Inv(s)
    ensures Enabled(s, AtLeader(L.GiveUp(i))) <==> L.At(s.leader, i, L.Replicating)
  {
    if L.At(s.leader, i, L.Committed) {
      L.CommitWaitNeverWaits(s.models, s.ops, |s.followers|, s.leader, i);
    }
  }

  // ---------------------------------------------------------------- counting

  /** As many follower acknowledgements as the leader waits for are, with its own vote, more than half. */
  lemma NeededIsMajority(acks: nat, followers: nat)
    ensures acks >= L.Needed(followers) <==> 2 * (acks + 1) > followers + 1
  {
  }

  /** A handler commits exactly when it is waiting and more than half of all nodes have acknowledged. */
  lemma CommitsIff(s: State, i: nat)
    requires 1 <= i <= |s.leader.writes|
    ensures Enabled(s, AtLeader(L.Commit(i))) <==>
            s.leader.writes[i - 1].phase.Replicating? && 2 * (|s.leader.writes[i - 1].acks| + 1) > |s.followers| + 1
  {
    NeededIsMajority(|s.leader.writes[i - 1].acks|, |s.followers|);
  }
}
