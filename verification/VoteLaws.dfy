/**
  What becomes of a pending schema change, told from the events alone: who has voted and approved while
  it was pending, when that applies or rejects it, and what an applied change installs.
 */
module VoteLaws {
  import opened Wrappers
  import opened ModelSpecs
  import opened SchemaSync
  import V = Validation

  /** The policy's strategy for a change of this class. */
  function Governing(policy: VotePolicy, overall: Strategy): VoteStrategy {
    if overall == Breaking then policy.breaking
    else if overall == Versioned then policy.versioned
    else policy.additive
  }

  predicate IsPending(s: State, id: nat) {
    id in s.changes && s.changes[id].status == Pending
  }

  /** Event m comes to the change while it is pending. */
  predicate Meets(states: seq<State>, events: seq<Event>, id: nat, m: nat) {
    m < |states| && m < |events| && events[m].id == id && IsPending(states[m], id)
  }

  /** Event m is a vote with this answer, cast while the change is pending. */
  predicate Cast(states: seq<State>, events: seq<Event>, id: nat, m: nat, approve: bool) {
    Meets(states, events, id, m) && events[m].Vote? && events[m].approve == approve
  }

  /** Event m is an approval by hand, given while the change is pending. */
  predicate Signed(states: seq<State>, events: seq<Event>, id: nat, m: nat) {
    Meets(states, events, id, m) && events[m].Approve?
  }

  /** Event m is a rejection by hand, given while the change is pending. */
  predicate Vetoed(states: seq<State>, events: seq<Event>, id: nat, m: nat) {
    Meets(states, events, id, m) && events[m].RejectByHand?
  }

  /** The nodes whose votes with this answer came in steps j to k. */
  function Nodes(states: seq<State>, events: seq<Event>, id: nat, j: nat, k: nat, approve: bool): set<nat> {
    set m: nat | j <= m < k && Cast(states, events, id, m, approve) :: events[m].nodeId
  }

  /** The users whose approvals came in steps j to k. */
  function Users(states: seq<State>, events: seq<Event>, id: nat, j: nat, k: nat): set<string> {
    set m: nat | j <= m < k && Signed(states, events, id, m) :: events[m].userId
  }

  ghost predicate SomeVote(states: seq<State>, events: seq<Event>, id: nat, j: nat, k: nat) {
    exists m: nat, approve :: j <= m < k && Cast(states, events, id, m, approve)
  }

  ghost predicate SomeApproval(states: seq<State>, events: seq<Event>, id: nat, j: nat, k: nat) {
    exists m: nat :: j <= m < k && Signed(states, events, id, m)
  }

  ghost predicate SomeVeto(states: seq<State>, events: seq<Event>, id: nat, j: nat, k: nat) {
    exists m: nat :: j <= m < k && Vetoed(states, events, id, m)
  }

  /** The record of the change is there at step j, and no proposal replaces it before step k. */
  ghost predicate Follows(
      states: seq<State>, events: seq<Event>, policy: VotePolicy, totalNodes: nat, id: nat, j: nat, k: nat) {
    && Run(states, events, policy, totalNodes) && j <= k <= |events|
    && id in states[j].changes && NotReplaced(events, policy, id, j, k)
  }

  // ---------------------------------------------------------------- one step

  /** The step does not replace the record. */
  ghost predicate Leaves(s: State, e: Event, policy: VotePolicy, id: nat) {
    id in s.changes && (IsStored(e, policy) ==> e.id != id)
  }

  predicate Counts(s: State, e: Event, id: nat) {
    IsPending(s, id) && e.id == id
  }

  /** The record is in both states, and only its tallies, status and reason may differ. */
  ghost predicate SameProposal(s: State, t: State, id: nat) {
    && id in s.changes && id in t.changes
    && var p, q := s.changes[id], t.changes[id];
       q == p.(approvals := q.approvals, rejections := q.rejections, humanApprovals := q.humanApprovals,
               status := q.status, rejectionReason := q.rejectionReason)
  }

  /** Who is added to which tally. */
  ghost predicate Tallied(s: State, e: Event, t: State, id: nat)
    requires id in s.changes && id in t.changes
  {
    var p, q := s.changes[id], t.changes[id];
    && Voters(q.approvals) ==
       Voters(p.approvals) + (if Counts(s, e, id) && e.Vote? && e.approve then {e.nodeId} else {})
    && Voters(q.rejections) ==
       Voters(p.rejections) + (if Counts(s, e, id) && e.Vote? && !e.approve then {e.nodeId} else {})
    && Voters(q.humanApprovals) ==
       Voters(p.humanApprovals) + (if Counts(s, e, id) && e.Approve? then {e.userId} else {})
  }

  /** What the event makes of a pending record. */
  ghost function After(p: PendingChange, e: Event, policy: VotePolicy, totalNodes: nat): PendingChange
    requires !e.Propose?
  {
    if e.Vote? then Voted(p, e, policy, totalNodes)
    else if e.Approve? then WithApproval(p, e.userId, policy, totalNodes)
    else p.(status := Rejected, rejectionReason := e.reason)
  }

  ghost predicate Turns(s: State, e: Event, t: State, policy: VotePolicy, totalNodes: nat, id: nat) {
    && id in s.changes && id in t.changes
    && t.changes[id] ==
       if Counts(s, e, id) && !e.Propose? then After(s.changes[id], e, policy, totalNodes) else s.changes[id]
  }

  lemma StepTurns(s: State, e: Event, policy: VotePolicy, totalNodes: nat, id: nat)
    requires Leaves(s, e, policy, id)
    ensures Turns(s, e, Step(s, e, policy, totalNodes), policy, totalNodes, id)
  {
  }

  lemma TallyStep(s: State, e: Event, t: State, policy: VotePolicy, totalNodes: nat, id: nat)
    requires Turns(s, e, t, policy, totalNodes, id)
    ensures SameProposal(s, t, id) && Tallied(s, e, t, id)
  {
  }

  ghost predicate AllDistinct(p: PendingChange) {
    Distinct(p.approvals) && Distinct(p.rejections) && Distinct(p.humanApprovals)
  }

  ghost predicate KeepsDistinct(s: State, t: State, id: nat)
    requires id in s.changes && id in t.changes
  {
    AllDistinct(s.changes[id]) ==> AllDistinct(t.changes[id])
  }

  lemma DistinctStep(s: State, e: Event, t: State, policy: VotePolicy, totalNodes: nat, id: nat)
    requires Turns(s, e, t, policy, totalNodes, id)
    ensures KeepsDistinct(s, t, id)
  {
  }

  /** The tallies reach what the strategy asks for. */
  predicate Reached(strategy: VoteStrategy, p: PendingChange, totalNodes: nat) {
    || strategy.AutoAccept?
    || (strategy.Consensus? && 2 * |p.approvals| > totalNodes)
    || (strategy.ManualApproval? && |p.humanApprovals| >= strategy.minApprovers)
  }

  predicate Refused(strategy: VoteStrategy, p: PendingChange, totalNodes: nat, now: nat) {
    || strategy.Reject?
    || (strategy.Consensus? && 2 * |p.rejections| > totalNodes)
    || (strategy.ManualApproval? && strategy.timeout.Some? && p.expiresAt.Some? && now >= p.expiresAt.value)
  }

  /** What the event makes of the status. */
  ghost predicate Ruled(s: State, e: Event, t: State, policy: VotePolicy, totalNodes: nat, id: nat)
    requires id in s.changes && id in t.changes
  {
    var p, q := s.changes[id], t.changes[id];
    var g := Governing(policy, p.overall);
    if !Counts(s, e, id) || e.Propose? then q == p
    else if e.RejectByHand? then q.status == Rejected
    else if Reached(g, q, totalNodes) then q.status == Applied
    else if e.Vote? && Refused(g, q, totalNodes, e.now) then q.status == Rejected
    else q.status == Pending
  }

  lemma StatusStep(s: State, e: Event, t: State, policy: VotePolicy, totalNodes: nat, id: nat)
    requires Turns(s, e, t, policy, totalNodes, id)
    ensures Ruled(s, e, t, policy, totalNodes, id)
  {
  }

  /** Everything one step does to the record. */
  ghost predicate Linked(s: State, e: Event, t: State, policy: VotePolicy, totalNodes: nat, id: nat) {
    && SameProposal(s, t, id) && Tallied(s, e, t, id) && KeepsDistinct(s, t, id)
    && Ruled(s, e, t, policy, totalNodes, id)
  }

  ghost predicate Chain(
      states: seq<State>, events: seq<Event>, policy: VotePolicy, totalNodes: nat, id: nat, j: nat, k: nat) {
    && j <= k < |states| == |events| + 1 && id in states[j].changes
    && forall m: nat :: j <= m < k ==> Linked(states[m], events[m], states[m + 1], policy, totalNodes, id)
  }

  lemma StepIsLinked(s: State, e: Event, policy: VotePolicy, totalNodes: nat, id: nat)
    requires Leaves(s, e, policy, id)
    ensures Linked(s, e, Step(s, e, policy, totalNodes), policy, totalNodes, id)
  {
    var t := Step(s, e, policy, totalNodes);
    StepTurns(s, e, policy, totalNodes, id);
    TallyStep(s, e, t, policy, totalNodes, id);
    DistinctStep(s, e, t, policy, totalNodes, id);
    StatusStep(s, e, t, policy, totalNodes, id);
  }

  lemma {:induction false} RunIsChain(
      states: seq<State>, events: seq<Event>, policy: VotePolicy, totalNodes: nat, id: nat, j: nat, k: nat)
    requires Follows(states, events, policy, totalNodes, id, j, k)
    ensures Chain(states, events, policy, totalNodes, id, j, k) && id in states[k].changes
    decreases k
  {
    if j < k {
      RunIsChain(states, events, policy, totalNodes, id, j, k - 1);
      FollowsLinks(states, events, policy, totalNodes, id, j, k - 1);
      ChainGrows(states, events, policy, totalNodes, id, j, k - 1);
    }
  }

  lemma FollowsLinks(
      states: seq<State>, events: seq<Event>, policy: VotePolicy, totalNodes: nat, id: nat, j: nat, k: nat)
    requires j <= k && Follows(states, events, policy, totalNodes, id, j, k + 1) && id in states[k].changes
    ensures Linked(states[k], events[k], states[k + 1], policy, totalNodes, id)
  {
    assert states[k + 1] == Step(states[k], events[k], policy, totalNodes);
    StepIsLinked(states[k], events[k], policy, totalNodes, id);
  }

  lemma ChainGrows(
      states: seq<State>, events: seq<Event>, policy: VotePolicy, totalNodes: nat, id: nat, j: nat, k: nat)
    requires Chain(states, events, policy, totalNodes, id, j, k) && k < |events|
    requires Linked(states[k], events[k], states[k + 1], policy, totalNodes, id)
    ensures Chain(states, events, policy, totalNodes, id, j, k + 1) && id in states[k + 1].changes
  {
  }

  // ---------------------------------------------------------------- tallies over runs

  lemma OneMoreNode(states: seq<State>, events: seq<Event>, id: nat, j: nat, k: nat, approve: bool)
    requires j <= k
    ensures Nodes(states, events, id, j, k + 1, approve) ==
            Nodes(states, events, id, j, k, approve)
            + (if Cast(states, events, id, k, approve) then {events[k].nodeId} else {})
  {
  }

  lemma OneMoreUser(states: seq<State>, events: seq<Event>, id: nat, j: nat, k: nat)
    requires j <= k
    ensures Users(states, events, id, j, k + 1) ==
            Users(states, events, id, j, k) + (if Signed(states, events, id, k) then {events[k].userId} else {})
  {
  }

  /** What the events in between have added to the tallies. */
  ghost predicate TallyIs(states: seq<State>, events: seq<Event>, id: nat, j: nat, k: nat)
    requires j < |states| && k < |states| && id in states[j].changes && id in states[k].changes
  {
    var p, q := states[j].changes[id], states[k].changes[id];
    && Voters(q.approvals) == Voters(p.approvals) + Nodes(states, events, id, j, k, true)
    && Voters(q.rejections) == Voters(p.rejections) + Nodes(states, events, id, j, k, false)
    && Voters(q.humanApprovals) == Voters(p.humanApprovals) + Users(states, events, id, j, k)
  }

  /**
    Until a proposal replaces the record, the approvals gained are exactly the nodes that sent an
    approving vote while it was pending, the rejections gained those that sent a rejecting one, and the
    human approvals gained the users that approved by hand; what is proposed, and until when, stays.
   */
  lemma TalliesComeFromEvents(
      states: seq<State>, events: seq<Event>, policy: VotePolicy, totalNodes: nat, id: nat, j: nat, k: nat)
    requires Follows(states, events, policy, totalNodes, id, j, k)
    ensures SameProposal(states[j], states[k], id) && TallyIs(states, events, id, j, k)
  {
    RunIsChain(states, events, policy, totalNodes, id, j, k);
    ChainTallies(states, events, policy, totalNodes, id, j, k);
  }

  /** Each step tallies the votes it brings. */
  ghost predicate TallyChain(states: seq<State>, events: seq<Event>, id: nat, j: nat, k: nat) {
    && j <= k < |states| == |events| + 1 && id in states[j].changes
    && forall m: nat :: j <= m < k ==> TallyLink(states[m], events[m], states[m + 1], id)
  }

  ghost predicate TallyLink(s: State, e: Event, t: State, id: nat) {
    SameProposal(s, t, id) && Tallied(s, e, t, id)
  }

  lemma ChainTallies(
      states: seq<State>, events: seq<Event>, policy: VotePolicy, totalNodes: nat, id: nat, j: nat, k: nat)
    requires Chain(states, events, policy, totalNodes, id, j, k)
    ensures SameProposal(states[j], states[k], id) && TallyIs(states, events, id, j, k)
  {
    forall m: nat | j <= m < k
      ensures TallyLink(states[m], events[m], states[m + 1], id)
    {
      assert Linked(states[m], events[m], states[m + 1], policy, totalNodes, id);
    }
    AddTallies(states, events, id, j, k);
  }

  lemma {:induction false} AddTallies(states: seq<State>, events: seq<Event>, id: nat, j: nat, k: nat)
    requires TallyChain(states, events, id, j, k)
    ensures SameProposal(states[j], states[k], id) && TallyIs(states, events, id, j, k)
    decreases k
  {
    if j == k {
      TallyStart(states, events, id, j);
    } else {
      var last := k - 1;
      AddTallies(states, events, id, j, last);
      assert TallyLink(states[last], events[last], states[last + 1], id);
      NextTally(states, events, id, j, last);
      StaysProposed(states[j], states[last], states[k], id);
    }
  }

  lemma TallyStart(states: seq<State>, events: seq<Event>, id: nat, j: nat)
    requires j < |states| && id in states[j].changes
    ensures SameProposal(states[j], states[j], id) && TallyIs(states, events, id, j, j)
  {
    assert Nodes(states, events, id, j, j, true) == {} && Nodes(states, events, id, j, j, false) == {};
    assert Users(states, events, id, j, j) == {};
  }

  lemma StaysProposed(s: State, t: State, u: State, id: nat)
    requires SameProposal(s, t, id) && SameProposal(t, u, id)
    ensures SameProposal(s, u, id)
  {
  }

  lemma Grown<T>(start: set<T>, gained: set<T>, middle: set<T>, more: set<T>, end: set<T>, all: set<T>)
    requires middle == start + gained && end == middle + more && all == gained + more
    ensures end == start + all
  {
  }

  lemma NextTally(states: seq<State>, events: seq<Event>, id: nat, j: nat, k: nat)
    requires j <= k < |events| < |states|
    requires id in states[j].changes && id in states[k].changes && id in states[k + 1].changes
    requires TallyIs(states, events, id, j, k) && Tallied(states[k], events[k], states[k + 1], id)
    ensures TallyIs(states, events, id, j, k + 1)
  {
    var e := events[k];
    var p, r, q := states[j].changes[id], states[k].changes[id], states[k + 1].changes[id];
    OneMoreNode(states, events, id, j, k, true);
    OneMoreNode(states, events, id, j, k, false);
    OneMoreUser(states, events, id, j, k);
    Grown(Voters(p.approvals), Nodes(states, events, id, j, k, true), Voters(r.approvals),
          if Cast(states, events, id, k, true) then {e.nodeId} else {},
          Voters(q.approvals), Nodes(states, events, id, j, k + 1, true));
    Grown(Voters(p.rejections), Nodes(states, events, id, j, k, false), Voters(r.rejections),
          if Cast(states, events, id, k, false) then {e.nodeId} else {},
          Voters(q.rejections), Nodes(states, events, id, j, k + 1, false));
    Grown(Voters(p.humanApprovals), Users(states, events, id, j, k), Voters(r.humanApprovals),
          if Signed(states, events, id, k) then {e.userId} else {},
          Voters(q.humanApprovals), Users(states, events, id, j, k + 1));
  }

  /** The record starts pending, and nobody has voted on it or approved it. */
  predicate StartsWithoutVotes(s: State, id: nat) {
    && IsPending(s, id)
    && s.changes[id].approvals == [] && s.changes[id].rejections == [] && s.changes[id].humanApprovals == []
  }

  lemma {:induction false} ChainKeepsDistinct(
      states: seq<State>, events: seq<Event>, policy: VotePolicy, totalNodes: nat, id: nat, j: nat, k: nat)
    requires Chain(states, events, policy, totalNodes, id, j, k) && AllDistinct(states[j].changes[id])
    ensures id in states[k].changes && AllDistinct(states[k].changes[id])
    decreases k
  {
    if j < k {
      ChainKeepsDistinct(states, events, policy, totalNodes, id, j, k - 1);
      assert Linked(states[k - 1], events[k - 1], states[k - 1 + 1], policy, totalNodes, id);
    }
  }

  /** The lengths of the tallies are numbers of different voters. */
  ghost predicate CountIs(states: seq<State>, events: seq<Event>, id: nat, j: nat, k: nat)
    requires k < |states| && id in states[k].changes
  {
    var q := states[k].changes[id];
    && |q.approvals| == |Nodes(states, events, id, j, k, true)|
    && |q.rejections| == |Nodes(states, events, id, j, k, false)|
    && |q.humanApprovals| == |Users(states, events, id, j, k)|
  }

  lemma ChainCounts(
      states: seq<State>, events: seq<Event>, policy: VotePolicy, totalNodes: nat, id: nat, j: nat, k: nat)
    requires Chain(states, events, policy, totalNodes, id, j, k) && StartsWithoutVotes(states[j], id)
    ensures SameProposal(states[j], states[k], id) && CountIs(states, events, id, j, k)
  {
    ChainTallies(states, events, policy, totalNodes, id, j, k);
    ChainKeepsDistinct(states, events, policy, totalNodes, id, j, k);
    var q := states[k].changes[id];
    DistinctCardinality(q.approvals);
    DistinctCardinality(q.rejections);
    DistinctCardinality(q.humanApprovals);
    NoVoters(states[j].changes[id]);
  }

  lemma NoVoters(p: PendingChange)
    requires p.approvals == [] && p.rejections == [] && p.humanApprovals == []
    ensures Voters(p.approvals) == {} && Voters(p.rejections) == {} && Voters(p.humanApprovals) == {}
  {
  }

  // ---------------------------------------------------------------- when a change is decided

  /** What the events have to have brought for the change to be applied. */
  ghost predicate Wins(
      states: seq<State>, events: seq<Event>, strategy: VoteStrategy, totalNodes: nat, id: nat, j: nat, k: nat) {
    match strategy
    case AutoAccept => SomeVote(states, events, id, j, k) || SomeApproval(states, events, id, j, k)
    case Reject => false
    case Consensus => 2 * |Nodes(states, events, id, j, k, true)| > totalNodes
    case ManualApproval(_, minApprovers) =>
      && (SomeVote(states, events, id, j, k) || SomeApproval(states, events, id, j, k))
      && |Users(states, events, id, j, k)| >= minApprovers
  }

  /** Event m is a vote after the change has expired, with too few approvals by hand until then. */
  ghost predicate VoteTooLate(
      states: seq<State>, events: seq<Event>, expiresAt: Option<nat>, minApprovers: nat, id: nat, j: nat, m: nat) {
    && (Cast(states, events, id, m, true) || Cast(states, events, id, m, false))
    && expiresAt.Some? && events[m].now >= expiresAt.value
    && |Users(states, events, id, j, m)| < minApprovers
  }

  /** A vote between steps j and k came too late. */
  ghost predicate SomeLateVote(
      states: seq<State>, events: seq<Event>, expiresAt: Option<nat>, minApprovers: nat, id: nat, j: nat, k: nat) {
    exists m: nat :: j <= m < k && VoteTooLate(states, events, expiresAt, minApprovers, id, j, m)
  }

  /** What the events have to have brought for the change to be rejected. */
  ghost predicate Loses(
      states: seq<State>, events: seq<Event>, strategy: VoteStrategy, expiresAt: Option<nat>, totalNodes: nat,
      id: nat, j: nat, k: nat) {
    || SomeVeto(states, events, id, j, k)
    || match strategy
       case AutoAccept => false
       case Reject => SomeVote(states, events, id, j, k)
       case Consensus => 2 * |Nodes(states, events, id, j, k, false)| > totalNodes
       case ManualApproval(timeout, minApprovers) =>
         timeout.Some? && SomeLateVote(states, events, expiresAt, minApprovers, id, j, k)
  }

  /** What has been decided is what the events up to here say. */
  ghost predicate Decided(
      states: seq<State>, events: seq<Event>, policy: VotePolicy, totalNodes: nat, id: nat, j: nat, k: nat)
    requires j < |states| && k < |states| && id in states[j].changes && id in states[k].changes
  {
    var p, q := states[j].changes[id], states[k].changes[id];
    var strategy := Governing(policy, p.overall);
    && (q.status == Applied <==> Wins(states, events, strategy, totalNodes, id, j, k))
    && (q.status == Rejected <==> Loses(states, events, strategy, p.expiresAt, totalNodes, id, j, k))
    && (q.status == Pending || q.status == Applied || q.status == Rejected)
  }

  /**
    From the events alone: a record that starts pending and without votes is applied exactly when they
    have brought what its strategy asks for, and rejected exactly when somebody rejected it by hand, or
    a majority of the nodes by vote, or a vote came too late for the approvals by hand.
   */
  lemma DecidedByEventsIff(
      states: seq<State>, events: seq<Event>, policy: VotePolicy, totalNodes: nat, id: nat, j: nat, k: nat)
    requires Follows(states, events, policy, totalNodes, id, j, k) && StartsWithoutVotes(states[j], id)
    ensures id in states[k].changes && Decided(states, events, policy, totalNodes, id, j, k)
  {
    RunIsChain(states, events, policy, totalNodes, id, j, k);
    ChainDecides(states, events, policy, totalNodes, id, j, k);
  }

  lemma {:induction false} ChainDecides(
      states: seq<State>, events: seq<Event>, policy: VotePolicy, totalNodes: nat, id: nat, j: nat, k: nat)
    requires Chain(states, events, policy, totalNodes, id, j, k) && StartsWithoutVotes(states[j], id)
    ensures id in states[k].changes && Decided(states, events, policy, totalNodes, id, j, k)
    decreases k
  {
    if j < k {
      ChainDecides(states, events, policy, totalNodes, id, j, k - 1);
      NextDecision(states, events, policy, totalNodes, id, j, k - 1);
    } else {
      assert Nodes(states, events, id, j, j, true) == {} && Nodes(states, events, id, j, j, false) == {};
    }
  }

  // One more event, and what it adds to the evidence.

  lemma OneMoreEvent(states: seq<State>, events: seq<Event>, id: nat, j: nat, k: nat)
    requires j <= k
    ensures SomeVote(states, events, id, j, k + 1) <==>
            SomeVote(states, events, id, j, k) || Cast(states, events, id, k, true) || Cast(states, events, id, k, false)
    ensures SomeApproval(states, events, id, j, k + 1) <==>
            SomeApproval(states, events, id, j, k) || Signed(states, events, id, k)
    ensures SomeVeto(states, events, id, j, k + 1) <==>
            SomeVeto(states, events, id, j, k) || Vetoed(states, events, id, k)
  {
    if Cast(states, events, id, k, true) || Cast(states, events, id, k, false) {
      assert Cast(states, events, id, k, events[k].approve);
    }
  }

  lemma OneMoreLateVote(
      states: seq<State>, events: seq<Event>, expiresAt: Option<nat>, minApprovers: nat, id: nat, j: nat, k: nat)
    requires j <= k
    ensures SomeLateVote(states, events, expiresAt, minApprovers, id, j, k + 1) <==>
            SomeLateVote(states, events, expiresAt, minApprovers, id, j, k) ||
            VoteTooLate(states, events, expiresAt, minApprovers, id, j, k)
  {
  }

  lemma OthersAddNobody(states: seq<State>, events: seq<Event>, id: nat, j: nat, k: nat)
    requires j <= k && (Meets(states, events, id, k) ==> events[k].Propose?)
    ensures Nodes(states, events, id, j, k + 1, true) == Nodes(states, events, id, j, k, true)
    ensures Nodes(states, events, id, j, k + 1, false) == Nodes(states, events, id, j, k, false)
    ensures Users(states, events, id, j, k + 1) == Users(states, events, id, j, k)
  {
    OneMoreNode(states, events, id, j, k, true);
    OneMoreNode(states, events, id, j, k, false);
    OneMoreUser(states, events, id, j, k);
  }

  /** An event that does not come to the pending change decides nothing. */
  lemma OthersDecideNothing(
      states: seq<State>, events: seq<Event>, strategy: VoteStrategy, expiresAt: Option<nat>, totalNodes: nat,
      id: nat, j: nat, k: nat)
    requires j <= k && (Meets(states, events, id, k) ==> events[k].Propose?)
    ensures Wins(states, events, strategy, totalNodes, id, j, k + 1) <==>
            Wins(states, events, strategy, totalNodes, id, j, k)
    ensures Loses(states, events, strategy, expiresAt, totalNodes, id, j, k + 1) <==>
            Loses(states, events, strategy, expiresAt, totalNodes, id, j, k)
  {
    OthersAddNobody(states, events, id, j, k);
    OneMoreEvent(states, events, id, j, k);
    if strategy.ManualApproval? {
      OneMoreLateVote(states, events, expiresAt, strategy.minApprovers, id, j, k);
    }
  }

  /** When the change has not been decided, a vote or approval applies it if the tallies reach enough. */
  lemma NextWins(
      states: seq<State>, events: seq<Event>, strategy: VoteStrategy, totalNodes: nat, id: nat, j: nat, k: nat)
    requires j <= k && Meets(states, events, id, k) && !events[k].Propose?
    requires k + 1 < |states| && id in states[k + 1].changes && CountIs(states, events, id, j, k + 1)
    requires !Wins(states, events, strategy, totalNodes, id, j, k)
    ensures Wins(states, events, strategy, totalNodes, id, j, k + 1) <==>
            !events[k].RejectByHand? && Reached(strategy, states[k + 1].changes[id], totalNodes)
  {
    OneMoreEvent(states, events, id, j, k);
    if events[k].RejectByHand? {
      OneMoreNode(states, events, id, j, k, true);
      OneMoreUser(states, events, id, j, k);
    } else if events[k].Vote? {
      assert Cast(states, events, id, k, events[k].approve);
    }
  }

  lemma NextLoses(
      states: seq<State>, events: seq<Event>, strategy: VoteStrategy, totalNodes: nat, id: nat, j: nat, k: nat)
    requires j <= k && Meets(states, events, id, k) && (events[k].Vote? || events[k].Approve?)
    requires k + 1 < |states| && id in states[k + 1].changes && CountIs(states, events, id, j, k + 1)
    requires !Wins(states, events, strategy, totalNodes, id, j, k)
    requires !Loses(states, events, strategy, states[k + 1].changes[id].expiresAt, totalNodes, id, j, k)
    ensures var q := states[k + 1].changes[id];
            Loses(states, events, strategy, q.expiresAt, totalNodes, id, j, k + 1) <==>
            events[k].Vote? && !Reached(strategy, q, totalNodes) && Refused(strategy, q, totalNodes, events[k].now)
  {
    OneMoreEvent(states, events, id, j, k);
    OneMoreNode(states, events, id, j, k, true);
    OneMoreNode(states, events, id, j, k, false);
    OneMoreUser(states, events, id, j, k);
    if strategy.ManualApproval? {
      OneMoreLateVote(states, events, states[k + 1].changes[id].expiresAt, strategy.minApprovers, id, j, k);
    }
  }

  lemma NextDecision(
      states: seq<State>, events: seq<Event>, policy: VotePolicy, totalNodes: nat, id: nat, j: nat, k: nat)
    requires Chain(states, events, policy, totalNodes, id, j, k + 1) && StartsWithoutVotes(states[j], id)
    requires j <= k && id in states[k].changes && Decided(states, events, policy, totalNodes, id, j, k)
    ensures id in states[k + 1].changes && Decided(states, events, policy, totalNodes, id, j, k + 1)
  {
    assert Chain(states, events, policy, totalNodes, id, j, k);
    assert Linked(states[k], events[k], states[k + 1], policy, totalNodes, id);
    ChainCounts(states, events, policy, totalNodes, id, j, k);
    ChainCounts(states, events, policy, totalNodes, id, j, k + 1);
    var p := states[j].changes[id];
    var strategy := Governing(policy, p.overall);
    if !Meets(states, events, id, k) || events[k].Propose? {
      OthersDecideNothing(states, events, strategy, p.expiresAt, totalNodes, id, j, k);
    } else {
      NextWins(states, events, strategy, totalNodes, id, j, k);
      if events[k].RejectByHand? {
        OneMoreEvent(states, events, id, j, k);
      } else {
        NextLoses(states, events, strategy, totalNodes, id, j, k);
      }
    }
  }

  // ---------------------------------------------------------------- what proposals and decisions install

  /** What becomes of a proposal, by the policy for its class; no proposal touches the disk. */
  lemma ProposalEffect(s: State, id: nat, change: PendingChange, now: nat, policy: VotePolicy, totalNodes: nat)
    ensures var t := Step(s, Propose(id, change, now), policy, totalNodes);
            var g := Governing(policy, change.overall);
            && t.disk == s.disk
            && (g.AutoAccept? ==> t.schemas == s.schemas[change.modelName := change.newSpec] && t.changes == s.changes)
            && (g.Reject? ==> t == s)
            && (g.Consensus? ==> t.schemas == s.schemas && t.changes == s.changes[id := change])
            && (g.ManualApproval? && g.timeout.None? ==> t.schemas == s.schemas && t.changes == s.changes[id := change])
            && (g.ManualApproval? && g.timeout.Some? ==>
                  t.schemas == s.schemas &&
                  t.changes == s.changes[id := change.(expiresAt := Some(now + g.timeout.value))])
  {
  }

  /** The event applies the change that was pending. */
  predicate Applies(s: State, e: Event, t: State) {
    IsPending(s, e.id) && e.id in t.changes && t.changes[e.id].status == Applied
  }

  /** The event installs the proposed specification if it applies the change, and nothing otherwise. */
  ghost predicate Installs(s: State, e: Event, t: State) {
    && (!Applies(s, e, t) ==> t.schemas == s.schemas && t.disk == s.disk)
    && (Applies(s, e, t) ==>
          var p := s.changes[e.id];
          && t.schemas == s.schemas[p.modelName := p.newSpec]
          && t.disk == if e.Approve? && e.saved then s.disk[p.newSpec.modelName := p.newSpec] else s.disk)
  }

  /**
    A vote, approval or rejection touches no other record. It installs the proposed specification
    exactly when it applies the change, and writes it to disk exactly when it is an approval by hand
    that also saves.
   */
  lemma DecisionEffect(s: State, e: Event, policy: VotePolicy, totalNodes: nat)
    requires !e.Propose?
    ensures var t := Step(s, e, policy, totalNodes);
            && Installs(s, e, t)
            && t.changes.Keys == s.changes.Keys
            && forall id :: id in s.changes && id != e.id ==> t.changes[id] == s.changes[id]
  {
    var t := Step(s, e, policy, totalNodes);
    if Counts(s, e, e.id) {
      StoreEffect(s, e, After(s.changes[e.id], e, policy, totalNodes), t);
    }
  }

  lemma StoreEffect(s: State, e: Event, p: PendingChange, t: State)
    requires !e.Propose? && IsPending(s, e.id)
    requires t == Persist(Store(s, e.id, p), p, e.Approve? && e.saved)
    requires p.modelName == s.changes[e.id].modelName && p.newSpec == s.changes[e.id].newSpec
    ensures Installs(s, e, t) && t.changes == s.changes[e.id := p]
  {
  }

  /** An applied change has installed its specification in one of the steps since it was pending. */
  lemma {:induction false} AppliedWasInstalled(
      states: seq<State>, events: seq<Event>, policy: VotePolicy, totalNodes: nat, id: nat, j: nat, k: nat)
      returns (m: nat)
    requires Follows(states, events, policy, totalNodes, id, j, k) && IsPending(states[j], id)
    requires id in states[k].changes && states[k].changes[id].status == Applied
    ensures j <= m < k && IsPending(states[m], id) && events[m].id == id
    ensures var p := states[j].changes[id]; states[m + 1].schemas == states[m].schemas[p.modelName := p.newSpec]
    decreases k
  {
    var last := k - 1;
    assert Follows(states, events, policy, totalNodes, id, j, last);
    TalliesComeFromEvents(states, events, policy, totalNodes, id, j, last);
    FollowsLinks(states, events, policy, totalNodes, id, j, last);
    if states[last].changes[id].status == Applied {
      m := AppliedWasInstalled(states, events, policy, totalNodes, id, j, last);
    } else {
      m := last;
      assert states[last + 1] == Step(states[last], events[last], policy, totalNodes);
      DecisionEffect(states[last], events[last], policy, totalNodes);
    }
  }

  /** A change that startup has proposed starts pending and without votes, with the new specification to install. */
  lemma StartupStartsWithoutVotes(s: State, proposals: seq<V.Proposal>, id: nat) returns (p: V.Proposal)
    requires IsStartup(s, proposals) && id in s.changes
    ensures StartsWithoutVotes(s, id) && s.changes[id].rejectionReason == None && s.changes[id].expiresAt == None
    ensures p in proposals && s.changes[id].modelName == p.modelName && s.changes[id].newSpec == p.newSpec
    ensures s.changes[id].overall == Breaking <==> exists c :: c in p.changes && c.strategy == Breaking
    ensures s.changes[id].overall == Additive <==> forall c :: c in p.changes ==> c.strategy == Additive
  {
    p :| p in proposals && s.changes[id] == FromStartup(p);
  }

  // ---------------------------------------------------------------- why a change was rejected

  /** Event m is a node's first rejecting vote, and gives a reason. */
  predicate GivesReason(states: seq<State>, events: seq<Event>, id: nat, j: nat, m: nat) {
    && Cast(states, events, id, m, false) && events[m].reason.Some?
    && events[m].nodeId !in Nodes(states, events, id, j, m, false)
  }

  /** The reason is the one rejecting by hand gave, or else the first one a rejecting vote gave. */
  ghost predicate ReasonIs(states: seq<State>, events: seq<Event>, id: nat, j: nat, k: nat)
    requires k < |states| && id in states[k].changes
  {
    var reason := states[k].changes[id].rejectionReason;
    && (forall m: nat :: j <= m < k && Vetoed(states, events, id, m) ==> reason == events[m].reason)
    && (!SomeVeto(states, events, id, j, k) ==>
          && (reason.None? <==> forall m: nat :: j <= m < k ==> !GivesReason(states, events, id, j, m))
          && (forall m: nat :: (j <= m < k && GivesReason(states, events, id, j, m)
                               && forall l: nat :: j <= l < m ==> !GivesReason(states, events, id, j, l)) ==>
                reason == events[m].reason))
  }

  /** What one event does to the reason. */
  ghost predicate Explained(s: State, e: Event, t: State, id: nat) {
    && id in s.changes && id in t.changes
    && var p, reason := s.changes[id], t.changes[id].rejectionReason;
       if !Counts(s, e, id) || e.Propose? || e.Approve? then reason == p.rejectionReason
       else if e.RejectByHand? then reason == e.reason
       else if !e.approve && e.nodeId !in Voters(p.rejections) && p.rejectionReason.None? then reason == e.reason
       else reason == p.rejectionReason
  }

  lemma FollowsExplains(
      states: seq<State>, events: seq<Event>, policy: VotePolicy, totalNodes: nat, id: nat, j: nat, k: nat)
    requires j <= k && Follows(states, events, policy, totalNodes, id, j, k + 1) && id in states[k].changes
    ensures Explained(states[k], events[k], states[k + 1], id)
  {
    assert states[k + 1] == Step(states[k], events[k], policy, totalNodes);
    StepTurns(states[k], events[k], policy, totalNodes, id);
  }

  lemma NextReason(states: seq<State>, events: seq<Event>, id: nat, j: nat, k: nat)
    requires j <= k < |events| < |states| && id in states[k].changes && ReasonIs(states, events, id, j, k)
    requires Explained(states[k], events[k], states[k + 1], id)
    requires Voters(states[k].changes[id].rejections) == Nodes(states, events, id, j, k, false)
    requires SomeVeto(states, events, id, j, k) ==> !IsPending(states[k], id)
    ensures ReasonIs(states, events, id, j, k + 1)
  {
    var before, after := states[k].changes[id].rejectionReason, states[k + 1].changes[id].rejectionReason;
    if SomeVeto(states, events, id, j, k) || Vetoed(states, events, id, k) {
      assert SomeVeto(states, events, id, j, k + 1);
    } else {
      assert !SomeVeto(states, events, id, j, k + 1);
      assert before.None? ==> after == if GivesReason(states, events, id, j, k) then events[k].reason else None;
      assert before.Some? ==> after == before;
    }
  }

  /**
    The reason of a change is the one that rejecting by hand gave; without that it is the first one that
    a node gave with its first rejecting vote, and there is none as long as no such vote gave one.
   */
  lemma {:induction false} ReasonIsFirstGiven(
      states: seq<State>, events: seq<Event>, policy: VotePolicy, totalNodes: nat, id: nat, j: nat, k: nat)
    requires Follows(states, events, policy, totalNodes, id, j, k)
    requires StartsWithoutVotes(states[j], id) && states[j].changes[id].rejectionReason.None?
    ensures id in states[k].changes && ReasonIs(states, events, id, j, k)
    decreases k
  {
    if j < k {
      var last := k - 1;
      assert Follows(states, events, policy, totalNodes, id, j, last);
      ReasonIsFirstGiven(states, events, policy, totalNodes, id, j, last);
      FollowsExplains(states, events, policy, totalNodes, id, j, last);
      TalliesComeFromEvents(states, events, policy, totalNodes, id, j, last);
      NoVoters(states[j].changes[id]);
      DecidedByEventsIff(states, events, policy, totalNodes, id, j, last);
      NextReason(states, events, id, j, last);
    }
  }
}
