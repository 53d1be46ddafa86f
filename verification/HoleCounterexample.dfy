/**
  Concrete runs with two followers in which entry 2 is inserted before entry 1. The request of write 2
  carries a hole, and the follower that counts for it answers success without applying anything; the
  leader commits index 2 while no node stores entry 1, and can acknowledge entry 2 although no follower
  has applied it.
 */
module HoleCounterexample {
  import opened Wrappers
  import opened Crud
  import opened ReplicatedLog
  import opened Cluster
  import opened Safety
  import opened CleanRuns
  import opened ClusterReach
  import opened AckContinuations
  import opened AckSafety
  import Reachability
  import L = Leader
  import F = Follower

  const MODELS := [Model("Product", "/api")]
  const FIRST := Create("/api", Parsed(Item("x", "one")))
  const SECOND := Delete("/api", "x")
  const ONLY_2: Log := map[2 := SECOND]
  const REQUEST_2 := F.Request(F.FromWrite(2), ONLY_2, 2)
  const EMPTY: Stores := [map[]]
  const NEW_FOLLOWER := F.Node(map[], 0, 0, EMPTY, None, [], [])

  // ---------------------------------------------------------------- building the run

  ghost predicate EndsIn(states: seq<State>, steps: seq<Step>, s: State) {
    Run(MODELS, 2, states, steps) && states[|steps|] == s
  }

  /** Extends a run by one enabled step. */
  lemma Go(states: seq<State>, steps: seq<Step>, step: Step, next: State)
      returns (longer: seq<State>, more: seq<Step>)
    requires Run(MODELS, 2, states, steps)
    requires Enabled(states[|steps|], step) && Do(states[|steps|], step) == next
    ensures EndsIn(longer, more, next)
  {
    longer, more := states + [next], steps + [step];
    forall k: nat | k < |more|
      ensures Reachability.Linked(Next, longer, more, k)
    {
      if k < |steps| {
        assert Reachability.Linked(Next, states, steps, k);
      }
    }
  }

  /** Extends a run by a step of one follower, given what the step does to that follower. */
  lemma GoFollower(states: seq<State>, steps: seq<Step>, s: State, peer: nat, a: F.Action, g: F.Node)
      returns (longer: seq<State>, more: seq<Step>)
    requires EndsIn(states, steps, s) && Enabled(s, AtFollower(peer, a))
    requires F.Do(s.models, s.followers[peer], a) == g
    ensures EndsIn(longer, more, s.(followers := s.followers[peer := g]))
  {
    longer, more := Go(states, steps, AtFollower(peer, a), s.(followers := s.followers[peer := g]));
  }

  /** Extends a run by a step that changes the leader and sends nothing. */
  lemma GoLeader(states: seq<State>, steps: seq<Step>, s: State, step: Step, a: L.Action, m: L.Node)
      returns (longer: seq<State>, more: seq<Step>)
    requires EndsIn(states, steps, s) && Enabled(s, step)
    requires step.AtLeader? || step.Collect? || step.Record?
    requires LeaderPart(step) == Some(a) && !a.Reserve?
    requires L.Do(s.models, s.ops, |s.followers|, s.leader, a) == m
    ensures EndsIn(longer, more, s.(leader := m))
  {
    assert s.net + {} == s.net;
    longer, more := Go(states, steps, step, s.(leader := m));
  }

  ghost predicate FollowerStep(f: F.Node, a: F.Action, g: F.Node) {
    F.Enabled(MODELS, f, a) && F.Do(MODELS, f, a) == g
  }

  ghost predicate LeaderStep(l: L.Node, a: L.Action, m: L.Node) {
    L.Enabled(MODELS, [FIRST, SECOND], 2, l, a) && L.Do(MODELS, [FIRST, SECOND], 2, l, a) == m
  }

  lemma LastIndices()
    ensures LastIndex(ONLY_2) == 2
  {
    assert 2 in ONLY_2;
  }

  const WAITING := L.Write(L.Reserved, map[], {}, false)

  /** The leader while write 1 still waits for its insert. */
  function Early(log: Log, commit: nat, second: L.Write, known: nat): L.Node {
    L.Node(log, commit, 0, EMPTY, None, [WAITING, second], map[], [0, known], [])
  }

  function Second(phase: L.Phase, acks: set<nat>): L.Write {
    L.Write(phase, ONLY_2, acks, acks != {} && phase != L.Replicating)
  }

  function Before(leader: L.Node, follower: F.Node): State {
    State(MODELS, [FIRST, SECOND], leader, [NEW_FOLLOWER, follower], {REQUEST_2})
  }

  const SENT := Early(ONLY_2, 0, Second(L.Replicating, {}), 0)

  const START := State(MODELS, [], L.Node(map[], 0, 0, EMPTY, None, [], map[], [0, 0], []),
    [NEW_FOLLOWER, NEW_FOLLOWER], {})

  const RESERVED := Before(Early(map[], 0, WAITING, 0), NEW_FOLLOWER).(net := {})

  lemma ReserveBoth() returns (states: seq<State>, steps: seq<Step>)
    ensures EndsIn(states, steps, RESERVED)
  {
    assert EmptyStores(MODELS) == EMPTY;
    assert Init(MODELS, 2) == START;
    states, steps := [START], [];
    var s := START.(ops := [FIRST], leader := START.leader.(writes := [WAITING]));
    states, steps := Go(states, steps, AtLeader(L.Reserve(FIRST)), s);
    states, steps := Go(states, steps, AtLeader(L.Reserve(SECOND)), RESERVED);
  }

  const INSERTED := Before(Early(ONLY_2, 0, WAITING.(phase := L.Inserted), 0), NEW_FOLLOWER).(net := {})

  /** Both indices are reserved; entry 2 is inserted and sent first. */
  lemma SendSecondFirst() returns (states: seq<State>, steps: seq<Step>)
    ensures EndsIn(states, steps, Before(SENT, NEW_FOLLOWER))
  {
    states, steps := ReserveBoth();
    states, steps := Go(states, steps, AtLeader(L.Insert(2)), INSERTED);
    states, steps := Go(states, steps, Send(2), Before(SENT, NEW_FOLLOWER));
  }

  function Holed(phase: F.Phase): F.Node {
    F.Node(ONLY_2, 2, 0, EMPTY, None, [F.Handler(REQUEST_2, phase)], [])
  }

  const ARRIVED := NEW_FOLLOWER.(handlers := [F.Handler(REQUEST_2, F.Received)])

  /** With entry 1 missing the follower has nothing to apply, and so nothing that could fail. */
  lemma HoledRound()
    ensures FollowerStep(NEW_FOLLOWER, F.Receive(REQUEST_2), ARRIVED)
    ensures FollowerStep(ARRIVED, F.MergeEntries(0), Holed(F.Merged(2)))
    ensures FollowerStep(Holed(F.Merged(2)), F.Lock(0, 2), Holed(F.Applying(1, [], 0)).(lock := Some(0)))
    ensures FollowerStep(Holed(F.Applying(1, [], 0)).(lock := Some(0)), F.Unlock(0), Holed(F.Released(true)))
    ensures FollowerStep(Holed(F.Released(true)), F.Respond(0), Holed(F.Done(true, 2)))
  {
    LastIndices();
    assert NEW_FOLLOWER.handlers + [F.Handler(REQUEST_2, F.Received)] == ARRIVED.handlers;
    assert Merge(map[], ONLY_2) == ONLY_2;
  }

  /** Follower 1 stores entry 2 and answers success. */
  lemma AnswerSecond() returns (states: seq<State>, steps: seq<Step>)
    ensures EndsIn(states, steps, Before(SENT, ANSWERED))
  {
    HoledRound();
    states, steps := SendSecondFirst();
    states, steps := GoFollower(states, steps, Before(SENT, NEW_FOLLOWER), 1, F.Receive(REQUEST_2), ARRIVED);
    states, steps := GoFollower(states, steps, Before(SENT, ARRIVED), 1, F.MergeEntries(0), Holed(F.Merged(2)));
    var f := Holed(F.Applying(1, [], 0)).(lock := Some(0));
    states, steps := GoFollower(states, steps, Before(SENT, Holed(F.Merged(2))), 1, F.Lock(0, 2), f);
    states, steps := GoFollower(states, steps, Before(SENT, f), 1, F.Unlock(0), Holed(F.Released(true)));
    states, steps := GoFollower(states, steps, Before(SENT, Holed(F.Released(true))), 1, F.Respond(0), ANSWERED);
  }

  const ANSWERED := Holed(F.Done(true, 2))

  const COUNTED := Early(ONLY_2, 0, Second(L.Replicating, {1}), 2)

  const COMMITTED := Early(ONLY_2, 2, Second(L.Committed, {1}), 2)

  const COMMIT_SEEN := Early(ONLY_2, 2, Second(L.CommitSeen, {1}), 2)

  lemma SecondCommits()
    ensures LeaderStep(SENT, L.Record(1, 2), SENT.(known := [0, 2]))
    ensures LeaderStep(SENT.(known := [0, 2]), L.Collect(2, 1), COUNTED)
    ensures LeaderStep(COUNTED, L.Commit(2), COMMITTED)
    ensures LeaderStep(COMMITTED, L.SeeCommit(2), COMMIT_SEEN)
  {
    LastIndices();
    assert {} + {1 as nat} == {1};
    assert [0, 0][1 := 2] == [0, 2];
  }

  lemma CountSecond() returns (states: seq<State>, steps: seq<Step>)
    ensures EndsIn(states, steps, Before(COUNTED, ANSWERED))
  {
    states, steps := AnswerSecond();
    SecondCommits();
    var recorded := SENT.(known := [0, 2]);
    states, steps := GoLeader(states, steps, Before(SENT, ANSWERED), Record(1, 0, 2), L.Record(1, 2), recorded);
    states, steps := GoLeader(states, steps, Before(recorded, ANSWERED), Collect(2, 1, 0), L.Collect(2, 1), COUNTED);
  }

  /** The leader commits index 2 while entry 1 is stored on no node, not even on the leader. */
  lemma CommitSecond() returns (states: seq<State>, steps: seq<Step>)
    ensures EndsIn(states, steps, Before(COMMIT_SEEN, ANSWERED))
  {
    states, steps := CountSecond();
    SecondCommits();
    states, steps := GoLeader(states, steps, Before(COUNTED, ANSWERED), AtLeader(L.Commit(2)), L.Commit(2), COMMITTED);
    states, steps := GoLeader(states, steps, Before(COMMITTED, ANSWERED), AtLeader(L.SeeCommit(2)), L.SeeCommit(2), COMMIT_SEEN);
  }

  // ---------------------------------------------------------------- what the run shows

  /**
    The leader commits index 2 when no node stores entry 1, and has recorded index 2 for follower 1.
    Follower 1's log has a hole, and the catch-up message that is open for follower 0 does not adjoin
    its log.
   */
  lemma CommittedOverHole() returns (states: seq<State>, steps: seq<Step>)
    ensures Run(MODELS, 2, states, steps)
    ensures states[|steps|].leader.commit == 2
    ensures 1 !in states[|steps|].leader.log
    ensures forall f :: f in states[|steps|].followers ==> 1 !in f.log
    ensures states[|steps|].leader.known == [0, 2]
    ensures !NoHoles(states[|steps|])
    ensures Enabled(states[|steps|], CatchUp(0, 2)) && |states[|steps|].followers| == 2
    ensures exists r :: r in Emitted(states[|steps|], CatchUp(0, 2)) && !Adjoins(states[|steps|], r, 0)
  {
    states, steps := CommitSecond();
    var s := states[|steps|];
    LastIndices();
    assert s.followers[1].log == ONLY_2 && 1 !in ONLY_2;
    assert !HasPrefix(ONLY_2, 2);
    var r := RequestOf(s, CatchUp(0, 2)).value;
    assert r.entries == ONLY_2 && 1 !in r.entries;
    assert LastIndex(s.followers[0].log) == 0;
    assert r in Emitted(s, CatchUp(0, 2)) && !Adjoins(s, r, 0);
  }

  lemma FirstTwoApply()
    ensures Replay(MODELS, [FIRST, SECOND]).Ok?
  {
    assert [FIRST, SECOND][..1] == [FIRST] && [FIRST][..0] == [];
    assert EmptyStores(MODELS) == EMPTY;
    assert Replay(MODELS, [FIRST]) == ApplyCrud(MODELS, EMPTY, FIRST);
  }

  lemma InsertedFinisher(p: nat)
    requires p < 2
    ensures CanFinish(INSERTED, 2, p)
  {
    FirstTwoApply();
    assert [FIRST, SECOND][..2] == [FIRST, SECOND];
    UnheardFinishes(INSERTED, 2, p);
  }

  lemma InsertedIsHarmful()
    ensures Enabled(INSERTED, Send(2)) && !Harmless(INSERTED, 2)
    ensures |INSERTED.followers| == 2 && L.At(INSERTED.leader, 1, L.Reserved)
  {
    InsertedFinisher(0);
    assert 0 in Finishers(INSERTED, 2);
    assert INSERTED.followers[0].commit == 0;
  }

  lemma CanAcknowledge() returns (t: State)
    requires Inv(INSERTED)
    ensures CanReach(INSERTED, t) && L.At(t.leader, 2, L.Acknowledged) && |t.followers| == 2
    ensures forall peers :: !AppliedAtQuorum(t, peers, 2)
    ensures forall p :: 0 <= p < |t.followers| ==> t.followers[p].applied < 2
  {
    InsertedIsHarmful();
    var few: set<nat>;
    t, few := PendingInsertBreaksAcknowledgement(INSERTED, 2, 1);
    assert few == {};
    One(INSERTED, Send(2));
    Then(INSERTED, Do(INSERTED, Send(2)), t);
  }

  /** The write is acknowledged, yet no quorum, and in fact no follower, has applied it. */
  lemma AcknowledgedWithoutMajority() returns (states: seq<State>, steps: seq<Step>)
    ensures Run(MODELS, 2, states, steps)
    ensures L.At(states[|steps|].leader, 2, L.Acknowledged)
    ensures forall peers :: !AppliedAtQuorum(states[|steps|], peers, 2)
    ensures forall f :: f in states[|steps|].followers ==> f.applied < 2
  {
    states, steps := ReserveBoth();
    states, steps := Go(states, steps, AtLeader(L.Insert(2)), INSERTED);
    RunKeepsInv(MODELS, 2, states, steps, |steps|);
    var t := CanAcknowledge();
    states, steps := RunGoesOn(MODELS, 2, states, steps, t);
  }
}
