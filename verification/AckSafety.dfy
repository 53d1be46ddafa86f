/**
  Exactly when a send is safe to acknowledge: the states in which nothing can go wrong although a
  smaller index is pending, and the steps that go wrong in all others.
 */
module AckSafety {
  import opened Wrappers
  import opened Crud
  import opened ReplicatedLog
  import opened Cluster
  import opened Safety
  import opened CleanRuns
  import opened ClusterReach
  import opened Answers
  import opened Continuations
  import opened AckContinuations
  import Reachability
  import Rounds = FollowerRounds
  import L = Leader
  import F = Follower

  ghost function Finishers(s: State, i: nat): (peers: set<nat>)
    ensures forall p: nat :: p in peers <==> p < |s.followers| && CanFinish(s, i, p)
  {
    set p: nat | p in FirstPeers(|s.followers|) && CanFinish(s, i, p)
  }

  /**
    A pending index before i does no harm: the leader has a single follower or none, a write up to i
    has failed, every follower has heard of commit index i, or too few followers can go on through i.
   */
  ghost predicate Harmless(s: State, i: nat) {
    || |s.followers| < 2
    || (exists x :: 1 <= x <= i && L.At(s.leader, x, L.Failed))
    || (forall p :: 0 <= p < |s.followers| ==> s.followers[p].commit >= i)
    || |Finishers(s, i)| < L.Needed(|s.followers|)
  }

  /** In whatever way the run goes on, if write i is acknowledged, a majority has applied it. */
  ghost predicate AcknowledgementIsSafe(u: State, i: nat) {
    forall t :: CanReach(u, t) && L.At(t.leader, i, L.Acknowledged) ==> exists peers :: AppliedAtQuorum(t, peers, i)
  }

  // ---------------------------------------------------------------- going wrong

  lemma SubsetOfSize(all: set<nat>, k: nat) returns (some: set<nat>)
    requires k <= |all|
    ensures some <= all && |some| == k
  {
    if k == 0 {
      some := {};
    } else {
      var p :| p in all;
      var rest := SubsetOfSize(all - {p}, k - 1);
      some := rest + {p};
    }
  }

  /** With j missing, a request of write i makes a follower list nothing past j. */
  lemma HoleServes(s: State, i: nat, j: nat, p: nat)
    requires Inv(s) && i <= |s.ops| && Replay(s.models, s.ops[..i]).Ok? && p < |s.followers|
    requires 1 <= j < i && j !in s.leader.log
    ensures CanServe(s, p, s.leader.log, i)
  {
    var merged, commit := Merge(s.followers[p].log, s.leader.log), Max(s.followers[p].commit, i);
    assert merged.Keys == s.leader.log.Keys;
    forall c: nat | c <= commit && c <= |s.ops| && HasPrefix(merged, c)
      ensures Replay(s.models, s.ops[..c]).Ok?
    {
      assert c >= j ==> j in merged;
      PrefixApplies(s.models, s.ops, i, c);
    }
  }

  lemma FinisherAppliesAll(s: State, i: nat, p: nat)
    requires CanFinish(s, i, p)
    ensures Replay(s.models, s.ops[..i]).Ok?
  {
    assert HasPrefix(Filled(s, i), i);
  }

  lemma UnheardFinishes(s: State, i: nat, p: nat)
    requires i <= |s.ops| && Replay(s.models, s.ops[..i]).Ok?
    requires p < |s.followers| && s.followers[p].commit < i
    ensures CanFinish(s, i, p)
  {
    forall c: nat | c <= i && c <= |s.ops| && HasPrefix(Filled(s, i), c)
      ensures Replay(s.models, s.ops[..c]).Ok?
    {
      PrefixApplies(s.models, s.ops, i, c);
    }
  }

  lemma SomeoneFinishes(s: State, i: nat)
    requires |Finishers(s, i)| > 0
    ensures i <= |s.ops| && Replay(s.models, s.ops[..i]).Ok?
  {
    assert Finishers(s, i) != {};
    var p :| p in Finishers(s, i);
    FinisherAppliesAll(s, i, p);
  }

  /** A follower that answers first, and one that stays behind until the rest is replicated. */
  lemma ChooseFollowers(s: State, i: nat) returns (first: set<nat>, last: set<nat>, behind: nat)
    requires Inv(s) && i <= |s.ops| && !Harmless(s, i)
    ensures Replay(s.models, s.ops[..i]).Ok?
    ensures |first| == |last| == L.Needed(|s.followers|)
    ensures behind in last && behind !in first && behind < |s.followers| && s.followers[behind].commit < i
    ensures forall p :: p in first ==> p < |s.followers|
    ensures forall p :: p in last ==> CanFinish(s, i, p)
  {
    var n, needed, finishers := |s.followers|, L.Needed(|s.followers|), Finishers(s, i);
    behind :| 0 <= behind < n && s.followers[behind].commit < i;
    SomeoneFinishes(s, i);
    UnheardFinishes(s, i, behind);
    first := SubsetOfSize(FirstPeers(n) - {behind}, needed);
    var others := SubsetOfSize(finishers - {behind}, needed - 1);
    last := others + {behind};
  }

  lemma DecidedIsPast(s: State, u: State, decided: State, i: nat, peers: set<nat>)
    requires Inv(s) && Enabled(s, Send(i)) && u == Do(s, Send(i)) && Decided(u, decided, i, peers)
    requires forall x :: 1 <= x <= i ==> !L.At(s.leader, x, L.Failed)
    ensures i <= decided.leader.commit && L.At(decided.leader, i, L.Committed)
    ensures forall x :: 1 <= x < i ==> !L.At(decided.leader, x, L.Failed)
  {
    SentState(s, i);
    assert L.WriteOk(s.ops, |s.followers|, s.leader, i);
    assert i in s.leader.log;
    forall x | 1 <= x < i
      ensures !L.At(decided.leader, x, L.Failed)
    {
      assert !L.At(s.leader, x, L.Failed);
      assert decided.leader.writes[x - 1] == u.leader.writes[x - 1];
    }
  }

  /** After the first followers have answered, the last ones can still go all the way through i. */
  lemma DecidedIsReady(s: State, u: State, decided: State, i: nat, first: set<nat>, last: set<nat>)
    requires Enabled(s, Send(i)) && u == Do(s, Send(i)) && Decided(u, decided, i, first)
    requires Ready(s, i, last)
    ensures Ready(decided, i, last)
  {
    SentState(s, i);
    forall p | p in last
      ensures CanFinish(decided, i, p)
    {
      Rounds.LessIsListed(s.models, s.ops, Filled(s, i), Max(s.followers[p].commit, i),
                          Filled(decided, i), Max(decided.followers[p].commit, i));
    }
  }

  /** Sends write i, lets the first followers decide it, and the last ones everything before it. */
  lemma SendAndAcknowledge(s: State, i: nat, j: nat, first: set<nat>, last: set<nat>)
      returns (u: State, decided: State, driven: State, t: State)
    requires Inv(s) && Enabled(s, Send(i)) && 1 <= j < i && j !in s.leader.log
    requires forall x :: 1 <= x <= i ==> !L.At(s.leader, x, L.Failed)
    requires |first| >= L.Needed(|s.followers|) && (forall p :: p in first ==> p < |s.followers|)
    requires Ready(s, i, last)
    ensures u == Do(s, Send(i)) && L.At(u.leader, i, L.Replicating)
    ensures Decided(u, decided, i, first) && Calm(decided, driven, i - 1, last)
    ensures CanReach(u, t) && t.followers == driven.followers && L.At(t.leader, i, L.Acknowledged)
  {
    forall p | p in first
      ensures CanServe(s, p, s.leader.log, i)
    {
      HoleServes(s, i, j, p);
    }
    u, decided := SendAndDecide(s, i, first);
    DecidedIsPast(s, u, decided, i, first);
    DecidedIsReady(s, u, decided, i, first, last);
    StepKeepsInv(s, Send(i));
    ReachKeepsInv(u, decided);
    driven, t := DriveTo(decided, i, last);
    Then(u, decided, t);
  }

  /** A follower whose log has a hole before i, or that has not heard of commit index i, has not applied i. */
  lemma NotApplied(models: seq<Model>, ops: seq<CrudOp>, f: F.Node, i: nat)
    requires F.Inv(models, ops, f)
    requires f.commit < i || !HasPrefix(f.log, i)
    ensures f.applied < i
  {
  }

  lemma StaysBehind(
      s: State, u: State, decided: State, driven: State, i: nat, j: nat, first: set<nat>, last: set<nat>, p: nat)
    requires Inv(s) && Enabled(s, Send(i)) && u == Do(s, Send(i)) && Decided(u, decided, i, first)
    requires 1 <= j < i && j !in s.leader.log && p < |s.followers| && Calm(decided, driven, i - 1, last)
    requires p !in last || (p !in first && s.followers[p].commit < i)
    ensures driven.followers[p].commit < i || !HasPrefix(driven.followers[p].log, i)
  {
    SentState(s, i);
    if p !in last {
      assert j !in s.followers[p].log;
      assert j !in driven.followers[p].log;
    }
  }

  /**
    From any state in which write i is about to be sent while a smaller index waits for its insert, and
    in which that is not harmless, the write can be acknowledged while fewer followers have applied it
    than a majority needs.
   */
  lemma PendingInsertBreaksAcknowledgement(s: State, i: nat, j: nat) returns (t: State, few: set<nat>)
    requires Inv(s) && Enabled(s, Send(i)) && !Harmless(s, i)
    requires 1 <= j < i && L.At(s.leader, j, L.Reserved)
    ensures CanReach(Do(s, Send(i)), t) && L.At(t.leader, i, L.Acknowledged)
    ensures |t.followers| == |s.followers| && |few| < L.Needed(|t.followers|)
    ensures forall p :: 0 <= p < |t.followers| && t.followers[p].applied >= i ==> p in few
    ensures forall peers :: !AppliedAtQuorum(t, peers, i)
  {
    assert L.WriteOk(s.ops, |s.followers|, s.leader, j);
    var first, last, behind := ChooseFollowers(s, i);
    var u, decided, driven: State;
    u, decided, driven, t := SendAndAcknowledge(s, i, j, first, last);
    few := last - {behind};
    StepKeepsInv(s, Send(i));
    ReachKeepsInv(u, t);
    OnlyFewApplied(s, u, decided, driven, t, i, j, first, last, behind);
    forall peers: set<nat>
      ensures !AppliedAtQuorum(t, peers, i)
    {
      FewIsNoQuorum(t, few, peers, i);
    }
  }

  lemma OnlyFewApplied(
      s: State, u: State, decided: State, driven: State, t: State, i: nat, j: nat,
      first: set<nat>, last: set<nat>, behind: nat)
    requires Inv(s) && Enabled(s, Send(i)) && u == Do(s, Send(i)) && Decided(u, decided, i, first)
    requires 1 <= j < i && j !in s.leader.log && Calm(decided, driven, i - 1, last)
    requires Inv(t) && t.followers == driven.followers
    requires behind !in first && behind < |s.followers| && s.followers[behind].commit < i
    ensures |t.followers| == |s.followers|
    ensures forall p :: 0 <= p < |t.followers| && t.followers[p].applied >= i ==> p in last - {behind}
  {
    SentState(s, i);
    forall p | 0 <= p < |t.followers| && p !in last - {behind}
      ensures t.followers[p].applied < i
    {
      StaysBehind(s, u, decided, driven, i, j, first, last, p);
      NotApplied(t.models, t.ops, t.followers[p], i);
    }
  }

  lemma FewIsNoQuorum(t: State, few: set<nat>, peers: set<nat>, i: nat)
    requires |few| < L.Needed(|t.followers|)
    requires forall p :: 0 <= p < |t.followers| && t.followers[p].applied >= i ==> p in few
    ensures !AppliedAtQuorum(t, peers, i)
  {
    if peers <= few {
      MoreIsLarger(peers, few);
    }
  }

  // ---------------------------------------------------------------- going right

  /** Write x's request holds the whole prefix up to i, and all that was stored in state s. */
  ghost predicate SentFull(s: State, t: State, i: nat, x: nat) {
    && 1 <= x <= i && x <= |t.leader.writes|
    && !L.NotYetSent(t.leader.writes[x - 1].phase)
    && HasPrefix(t.leader.writes[x - 1].sent, i)
    && s.leader.log.Keys <= t.leader.writes[x - 1].sent.Keys
  }

  ghost predicate Unsent(t: State, x: nat) {
    1 <= x <= |t.leader.writes| && L.NotYetSent(t.leader.writes[x - 1].phase)
  }

  /** Some index up to i is pending, or its handler is the last to send, or has sent. */
  ghost predicate LastIsComing(s: State, t: State, i: nat) {
    && i <= |t.leader.writes| && s.leader.log.Keys <= t.leader.log.Keys
    && (|| (exists y :: 1 <= y <= i && L.At(t.leader, y, L.Reserved))
        || (HasPrefix(t.leader.log, i) && exists x :: 1 <= x <= i && Unsent(t, x))
        || (exists x :: SentFull(s, t, i, x)))
  }

  lemma SentFullStays(s: State, t: State, step: Step, i: nat, x: nat)
    requires Enabled(t, step) && SentFull(s, t, i, x)
    ensures SentFull(s, Do(t, step), i, x)
  {
    StepKeepsSentIs(t, step, x, t.leader.writes[x - 1].sent);
  }

  lemma UnsentSends(s: State, t: State, step: Step, i: nat, x: nat)
    requires Inv(t) && Enabled(t, step) && 1 <= x <= i && Unsent(t, x)
    requires HasPrefix(t.leader.log, i) && s.leader.log.Keys <= t.leader.log.Keys
    ensures Unsent(Do(t, step), x) || SentFull(s, Do(t, step), i, x)
  {
    StepIsLater(t, step);
    if step == Send(x) {
      SendRecordsLog(t, step);
    } else if LeaderPart(step).Some? && !Unsent(Do(t, step), x) {
      L.SentOnlyBySend(t.models, t.ops, |t.followers|, t.leader, LeaderPart(step).value, x);
    }
  }

  lemma ReservedIsUnsent(models: seq<Model>, ops: seq<CrudOp>, followers: nat, l: L.Node, a: L.Action, y: nat)
    requires L.Enabled(models, ops, followers, l, a) && L.At(l, y, L.Reserved)
    ensures var m := L.Do(models, ops, followers, l, a);
            y <= |m.writes| && L.NotYetSent(m.writes[y - 1].phase)
  {
    if L.Actor(a) != y {
      L.StepFrame(models, ops, followers, l, a, y);
    }
  }

  lemma ReservedInserts(t: State, step: Step, y: nat)
    requires Enabled(t, step) && L.At(t.leader, y, L.Reserved)
    ensures Unsent(Do(t, step), y)
  {
    if LeaderPart(step).Some? {
      ReservedIsUnsent(t.models, t.ops, |t.followers|, t.leader, LeaderPart(step).value, y);
    }
  }

  lemma NextIsComing(s: State, t: State, step: Step, i: nat)
    requires Inv(t) && Enabled(t, step) && LastIsComing(s, t, i)
    ensures LastIsComing(s, Do(t, step), i)
  {
    var u := Do(t, step);
    StepKeepsInv(t, step);
    StepIsLater(t, step);
    if x :| SentFull(s, t, i, x) {
      SentFullStays(s, t, step, i, x);
    } else if y :| 1 <= y <= i && L.At(t.leader, y, L.Reserved) {
      ReservedInserts(t, step, y);
      RequestIsHoleFreeIffNoPendingInsert(u, i);
    } else {
      var x :| 1 <= x <= i && Unsent(t, x);
      UnsentSends(s, t, step, i, x);
    }
  }

  ghost function Coming(s: State, i: nat): State -> bool {
    (t: State) => Inv(t) && LastIsComing(s, t, i)
  }

  lemma ReachIsComing(s: State, t: State, i: nat)
    requires Inv(s) && CanReach(s, t) && LastIsComing(s, s, i)
    ensures Inv(t) && LastIsComing(s, t, i)
  {
    forall p: State, step: Step, q: State | Coming(s, i)(p) && Next(p, step, q)
      ensures Coming(s, i)(q)
    {
      StepKeepsInv(p, step);
      NextIsComing(s, p, step, i);
    }
    Reachability.ReachKeeps(Next, Coming(s, i), s, t);
  }

  lemma AllAcknowledged(t: State, i: nat, x: nat)
    requires Inv(t) && L.At(t.leader, i, L.Acknowledged) && 1 <= x <= i
    ensures L.At(t.leader, x, L.Acknowledged) && t.leader.writes[x - 1].committed
    ensures t.leader.applied >= i
  {
    assert L.TurnOk(t.leader, i) && L.TurnOk(t.leader, x);
    assert L.WriteOk(t.ops, |t.followers|, t.leader, x);
  }

  /** Behind an acknowledged write there is one that was sent last, after state s, with everything up to i. */
  lemma LastSent(s: State, t: State, i: nat, j: nat) returns (x: nat)
    requires Inv(s) && CanReach(s, t) && L.At(t.leader, i, L.Acknowledged)
    requires 1 <= j <= i <= |s.leader.writes| && L.At(s.leader, j, L.Reserved)
    ensures SentFull(s, t, i, x) && Unsent(s, x) && t.leader.writes[x - 1].committed
  {
    ReachIsComing(s, t, i);
    forall y | 1 <= y <= i
      ensures !L.At(t.leader, y, L.Reserved) && !Unsent(t, y)
    {
      AllAcknowledged(t, i, y);
    }
    x :| SentFull(s, t, i, x);
    AllAcknowledged(t, i, x);
    if !Unsent(s, x) {
      SentTooEarly(s, t, i, j, x);
    }
  }

  /** What was sent before state s does not hold an entry that was pending then. */
  lemma SentTooEarly(s: State, t: State, i: nat, j: nat, x: nat)
    requires Inv(s) && CanReach(s, t) && 1 <= j <= i && L.At(s.leader, j, L.Reserved)
    requires 1 <= x <= |s.leader.writes| && !Unsent(s, x)
    ensures !SentFull(s, t, i, x)
  {
    ReachKeepsSent(s, t, x, s.leader.writes[x - 1].sent);
    assert L.WriteOk(s.ops, |s.followers|, s.leader, x) && L.WriteOk(s.ops, |s.followers|, s.leader, j);
  }

  /** Where every follower has heard of commit index i, whoever answers the last request applies entry i. */
  lemma HeardIsSafe(s: State, t: State, i: nat, x: nat)
    requires Inv(s) && CanReach(s, t) && Inv(t) && SentFull(s, t, i, x) && Unsent(s, x)
    requires t.leader.writes[x - 1].committed && t.leader.applied >= i
    requires forall p :: 0 <= p < |s.followers| ==> s.followers[p].commit >= i
    ensures AppliedAtQuorum(t, t.leader.writes[x - 1].acks, i)
  {
    CommittedHasQuorum(t, x);
    forall p | p in t.leader.writes[x - 1].acks
      ensures p < |t.followers| && t.followers[p].applied >= i && UpTo(i) <= t.followers[p].trace
    {
      AnswerCovers(s, t, x, p);
      assert F.Inv(t.models, t.ops, t.followers[p]);
    }
  }

  /** Whoever answers the last request can go on through i. */
  lemma CountedFinishes(s: State, t: State, i: nat, x: nat, p: nat)
    requires Inv(s) && CanReach(s, t) && SentFull(s, t, i, x) && Unsent(s, x) && p in t.leader.writes[x - 1].acks
    requires t.leader.applied >= i && i <= |s.ops|
    ensures p in Finishers(s, i)
  {
    ReachIsLater(s, t);
    AnswerCovers(s, t, x, p);
    LeaderPrefixApplies(s, t, i);
    var sent := t.leader.writes[x - 1].sent;
    forall c: nat | c <= Max(s.followers[p].commit, i) && c <= |s.ops| && HasPrefix(Filled(s, i), c)
      ensures Replay(s.models, s.ops[..c]).Ok?
    {
      if c <= i {
        PrefixApplies(s.models, s.ops, i, c);
      } else {
        assert HasPrefix(sent, c);
        AnsweredPrefixApplies(s, t, p, c);
      }
    }
  }

  lemma LeaderPrefixApplies(s: State, t: State, i: nat)
    requires Inv(t) && s.ops <= t.ops && t.models == s.models && i <= t.leader.applied && i <= |s.ops|
    ensures Replay(s.models, s.ops[..i]).Ok?
  {
    ReplayPrefixOk(t.models, t.ops[..L.Reflected(t.leader)], i);
    assert t.ops[..L.Reflected(t.leader)][..i] == s.ops[..i];
  }

  lemma EnoughFinish(s: State, t: State, i: nat, x: nat)
    requires Inv(s) && CanReach(s, t) && SentFull(s, t, i, x) && Unsent(s, x)
    requires t.leader.writes[x - 1].committed && t.leader.applied >= i && i <= |s.ops|
    ensures |Finishers(s, i)| >= L.Needed(|s.followers|)
  {
    ReachIsLater(s, t);
    CommittedHasQuorum(t, x);
    forall p | p in t.leader.writes[x - 1].acks
      ensures p in Finishers(s, i)
    {
      CountedFinishes(s, t, i, x, p);
    }
    MoreIsLarger(t.leader.writes[x - 1].acks, Finishers(s, i));
  }

  /** A single follower answers both for i and for the last request, and so applies entry i. */
  lemma SingleFollowerIsSafe(s: State, t: State, i: nat, x: nat)
    requires Inv(s) && CanReach(s, t) && Inv(t) && SentFull(s, t, i, x) && Unsent(s, i)
    requires i <= |t.leader.writes| && t.leader.writes[i - 1].committed
    requires t.leader.writes[x - 1].committed && t.leader.applied >= i && |t.followers| < 2
    ensures AppliedAtQuorum(t, t.leader.writes[i - 1].acks, i)
  {
    CommittedHasQuorum(t, x);
    CommittedHasQuorum(t, i);
    forall p | p in t.leader.writes[i - 1].acks
      ensures p < |t.followers| && t.followers[p].applied >= i && UpTo(i) <= t.followers[p].trace
    {
      OnlyOne(t.leader.writes[x - 1].acks);
      BothAnswersApply(s, t, i, x, p);
      assert F.Inv(t.models, t.ops, t.followers[p]);
    }
  }

  lemma OnlyOne(peers: set<nat>)
    requires |peers| >= 1 && forall p :: p in peers ==> p < 1
    ensures 0 in peers
  {
    var p :| p in peers;
  }

  /** Without a pending smaller index the followers that answered have applied the write themselves. */
  lemma NonePendingIsSafe(s: State, i: nat)
    requires Inv(s) && Enabled(s, Send(i)) && NonePendingUpTo(s, i)
    ensures AcknowledgementIsSafe(Do(s, Send(i)), i)
    ensures forall t :: CanReach(Do(s, Send(i)), t) && L.At(t.leader, i, L.Acknowledged) ==>
              AppliedAtQuorum(t, t.leader.writes[i - 1].acks, i)
  {
    var u := Do(s, Send(i));
    SentState(s, i);
    StepKeepsInv(s, Send(i));
    RequestIsHoleFreeIffNoPendingInsert(s, i);
    forall t | CanReach(u, t) && L.At(t.leader, i, L.Acknowledged)
      ensures AppliedAtQuorum(t, t.leader.writes[i - 1].acks, i)
    {
      ReachKeepsInv(u, t);
      ReachKeepsSent(u, t, i, s.leader.log);
      AcknowledgedMeansAppliedAtMajority(t, i);
    }
  }

  /** A pending index that is harmless, in one state in which write i is acknowledged. */
  lemma HarmlessPendingApplies(s: State, t: State, i: nat, j: nat)
    requires Inv(s) && Enabled(s, Send(i)) && Harmless(s, i) && CanReach(s, t)
    requires L.At(t.leader, i, L.Acknowledged)
    requires 1 <= j <= i && L.At(s.leader, j, L.Reserved)
    ensures exists peers :: AppliedAtQuorum(t, peers, i)
  {
    SentState(s, i);
    ReachIsLater(s, t);
    var x := LastSent(s, t, i, j);
    AllAcknowledged(t, i, i);
    EnoughFinish(s, t, i, x);
    if failed :| 1 <= failed <= i && L.At(s.leader, failed, L.Failed) {
      ReachKeepsFailed(s, t, failed);
      AllAcknowledged(t, i, failed);
      assert false;
    } else if |s.followers| < 2 {
      SingleFollowerIsSafe(s, t, i, x);
    } else {
      HeardIsSafe(s, t, i, x);
    }
  }

  lemma HarmlessIsSafe(s: State, i: nat, j: nat)
    requires Inv(s) && Enabled(s, Send(i)) && Harmless(s, i)
    requires 1 <= j <= i && L.At(s.leader, j, L.Reserved)
    ensures AcknowledgementIsSafe(Do(s, Send(i)), i)
  {
    var u := Do(s, Send(i));
    One(s, Send(i));
    forall t | CanReach(u, t) && L.At(t.leader, i, L.Acknowledged)
      ensures exists peers :: AppliedAtQuorum(t, peers, i)
    {
      Then(s, u, t);
      HarmlessPendingApplies(s, t, i, j);
    }
  }

  lemma HarmfulIsUnsafe(s: State, i: nat, j: nat)
    requires Inv(s) && Enabled(s, Send(i)) && !Harmless(s, i)
    requires 1 <= j < i && L.At(s.leader, j, L.Reserved)
    ensures !AcknowledgementIsSafe(Do(s, Send(i)), i)
  {
    var t, few := PendingInsertBreaksAcknowledgement(s, i, j);
  }

  lemma PendingIsBefore(s: State, i: nat, j: nat)
    requires Enabled(s, Send(i)) && 1 <= j <= i && L.At(s.leader, j, L.Reserved)
    ensures j < i
  {
  }

  /**
    Exactly when a send is safe to acknowledge, in every reachable state and for every history:
    whatever happens afterwards, an acknowledged write i has been applied at a majority, if and only if
    no smaller index was waiting for its insert when it was sent, or that was harmless.
   */
  lemma AcknowledgementIsSafeIff(s: State, i: nat)
    requires Inv(s) && Enabled(s, Send(i))
    ensures AcknowledgementIsSafe(Do(s, Send(i)), i) <==> NonePendingUpTo(s, i) || Harmless(s, i)
  {
    if NonePendingUpTo(s, i) {
      NonePendingIsSafe(s, i);
    } else {
      var j :| 1 <= j <= i && L.At(s.leader, j, L.Reserved);
      if Harmless(s, i) {
        HarmlessIsSafe(s, i, j);
      } else {
        PendingIsBefore(s, i, j);
        HarmfulIsUnsafe(s, i, j);
      }
    }
  }
}
