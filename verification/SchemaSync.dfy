/**
  Pending schema changes and the handlers that propose, vote on, approve and reject them. The cluster
  size and the policy are fixed.
 */
module SchemaSync {
  import opened Wrappers
  import opened ModelSpecs
  import V = Validation

  datatype Status = Pending | Approved | Rejected | Applied | Expired

  datatype PendingChange = PendingChange(
    modelName: string,
    newSpec: ModelSpec,
    overall: Strategy,
    status: Status,
    expiresAt: Option<nat>,
    approvals: seq<nat>,
    rejections: seq<nat>,
    humanApprovals: seq<string>,
    rejectionReason: Option<string>)

  /** `disk` holds the specifications that approvals have written, by the specification's own model name. */
  datatype State = State(
    schemas: map<string, ModelSpec>,
    changes: map<nat, PendingChange>,
    disk: map<string, ModelSpec>)

  /** `saved` says whether writing the approved specification to disk works. */
  datatype Event =
    | Propose(id: nat, change: PendingChange, now: nat)
    | Vote(id: nat, nodeId: nat, approve: bool, reason: Option<string>, now: nat)
    | Approve(id: nat, userId: string, saved: bool)
    | RejectByHand(id: nat, reason: Option<string>)

  datatype Answer = Accepted | AutoRejected | Awaiting | NotFound | Conflict | Recorded(status: Status)

  function AddOnce<T(==)>(list: seq<T>, x: T): seq<T> {
    if x in list then list else list + [x]
  }

  function AddApproval(p: PendingChange, nodeId: nat): PendingChange {
    p.(approvals := AddOnce(p.approvals, nodeId))
  }

  /** Only the first rejection that gives a reason sets it. */
  function AddRejection(p: PendingChange, nodeId: nat, reason: Option<string>): PendingChange {
    if nodeId in p.rejections then p
    else p.(rejections := p.rejections + [nodeId],
            rejectionReason := if p.rejectionReason.None? then reason else p.rejectionReason)
  }

  predicate HasEnoughApprovals(p: PendingChange, policy: VotePolicy, totalNodes: nat) {
    match StrategyFor(policy, p.overall)
    case AutoAccept => true
    case Reject => false
    case Consensus => |p.approvals| >= totalNodes / 2 + 1
    case ManualApproval(_, minApprovers) => |p.humanApprovals| >= minApprovers
  }

  predicate IsExpired(p: PendingChange, now: nat) {
    p.expiresAt.Some? && now >= p.expiresAt.value
  }

  predicate ShouldReject(p: PendingChange, policy: VotePolicy, totalNodes: nat, now: nat) {
    match StrategyFor(policy, p.overall)
    case AutoAccept => false
    case Reject => true
    case Consensus => |p.rejections| >= totalNodes / 2 + 1
    case ManualApproval(timeout, _) => timeout.Some? && IsExpired(p, now)
  }

  /** The record after a vote: approval wins over rejection when both thresholds are met. */
  function Voted(p: PendingChange, e: Event, policy: VotePolicy, totalNodes: nat): PendingChange
    requires e.Vote?
  {
    var tallied := if e.approve then AddApproval(p, e.nodeId) else AddRejection(p, e.nodeId, e.reason);
    if HasEnoughApprovals(tallied, policy, totalNodes) then tallied.(status := Applied)
    else if ShouldReject(tallied, policy, totalNodes, e.now) then tallied.(status := Rejected)
    else tallied
  }

  function WithApproval(p: PendingChange, userId: string, policy: VotePolicy, totalNodes: nat): PendingChange {
    var tallied := p.(humanApprovals := AddOnce(p.humanApprovals, userId));
    if HasEnoughApprovals(tallied, policy, totalNodes) then tallied.(status := Applied) else tallied
  }

  /** Stores a record; an applied one also becomes the model's current specification. */
  function Store(s: State, id: nat, p: PendingChange): State {
    s.(schemas := if p.status == Applied then s.schemas[p.modelName := p.newSpec] else s.schemas,
       changes := s.changes[id := p])
  }

  /** Only an approval by hand writes the applied specification to disk. */
  function Persist(s: State, p: PendingChange, saved: bool): State {
    if p.status == Applied && saved then s.(disk := s.disk[p.newSpec.modelName := p.newSpec]) else s
  }

  /** A proposal that is kept for voting or approval. */
  predicate IsStored(e: Event, policy: VotePolicy) {
    e.Propose? &&
    (StrategyFor(policy, e.change.overall).Consensus? || StrategyFor(policy, e.change.overall).ManualApproval?)
  }

  function Step(s: State, e: Event, policy: VotePolicy, totalNodes: nat): State {
    if e.Propose? then
      match StrategyFor(policy, e.change.overall)
      case AutoAccept => s.(schemas := s.schemas[e.change.modelName := e.change.newSpec])
      case Reject => s
      case Consensus => s.(changes := s.changes[e.id := e.change])
      case ManualApproval(timeout, _) =>
        var dated := if timeout.Some? then e.change.(expiresAt := Some(e.now + timeout.value)) else e.change;
        s.(changes := s.changes[e.id := dated])
    else if e.id !in s.changes || s.changes[e.id].status != Pending then s
    else
      var p := s.changes[e.id];
      if e.Vote? then Store(s, e.id, Voted(p, e, policy, totalNodes))
      else if e.Approve? then
        var approved := WithApproval(p, e.userId, policy, totalNodes);
        Persist(Store(s, e.id, approved), approved, e.saved)
      else Store(s, e.id, p.(status := Rejected, rejectionReason := e.reason))
  }

  // ---------------------------------------------------------------- the server object

  class SchemaServer {
    const policy: VotePolicy
    const totalNodes: nat
    var schemas: map<string, ModelSpec>
    var changes: map<nat, PendingChange>
    var disk: map<string, ModelSpec>

    function View(): State
      reads this
    {
      State(schemas, changes, disk)
    }

    constructor (policy: VotePolicy, peers: nat)
      ensures this.policy == policy && totalNodes == peers + 1 && View() == State(map[], map[], map[])
    {
      this.policy, totalNodes, schemas, changes, disk := policy, peers + 1, map[], map[], map[];
    }

    method HandlePropose(id: nat, change: PendingChange, now: nat) returns (answer: Answer)
      modifies this
      ensures View() == Step(old(View()), Propose(id, change, now), policy, totalNodes)
      ensures answer == Accepted <==> StrategyFor(policy, change.overall).AutoAccept?
      ensures answer == AutoRejected <==> StrategyFor(policy, change.overall).Reject?
      ensures answer == Awaiting <==> IsStored(Propose(id, change, now), policy)
    {
      match StrategyFor(policy, change.overall)
      case AutoAccept =>
        schemas := schemas[change.modelName := change.newSpec];
        answer := Accepted;
      case Reject =>
        answer := AutoRejected;
      case Consensus =>
        changes := changes[id := change];
        answer := Awaiting;
      case ManualApproval(timeout, _) =>
        var pending := change;
        if timeout.Some? {
          pending := pending.(expiresAt := Some(now + timeout.value));
        }
        changes := changes[id := pending];
        answer := Awaiting;
    }

    method HandleVote(id: nat, nodeId: nat, approve: bool, reason: Option<string>, now: nat) returns (answer: Answer)
      modifies this
      ensures View() == Step(old(View()), Vote(id, nodeId, approve, reason, now), policy, totalNodes)
      ensures answer == if id !in old(changes) then NotFound
                        else if old(changes)[id].status != Pending then Conflict
                        else Recorded(changes[id].status)
    {
      if id !in changes {
        return NotFound;
      }
      if changes[id].status != Pending {
        return Conflict;
      }
      var pending := changes[id];
      if approve {
        pending := AddApproval(pending, nodeId);
      } else {
        pending := AddRejection(pending, nodeId, reason);
      }
      var hasApprovals := HasEnoughApprovals(pending, policy, totalNodes);
      var shouldReject := ShouldReject(pending, policy, totalNodes, now);
      if hasApprovals {
        pending := pending.(status := Applied);
      } else if shouldReject {
        pending := pending.(status := Rejected);
      }
      changes := changes[id := pending];
      answer := Recorded(pending.status);
      if hasApprovals {
        schemas := schemas[pending.modelName := pending.newSpec];
      }
    }

    method HandleApprove(id: nat, userId: string, saved: bool) returns (answer: Answer)
      modifies this
      ensures View() == Step(old(View()), Approve(id, userId, saved), policy, totalNodes)
      ensures answer == if id !in old(changes) then NotFound
                        else if old(changes)[id].status != Pending then Conflict
                        else Recorded(changes[id].status)
    {
      if id !in changes {
        return NotFound;
      }
      if changes[id].status != Pending {
        return Conflict;
      }
      var pending := changes[id];
      pending := pending.(humanApprovals := AddOnce(pending.humanApprovals, userId));
      if HasEnoughApprovals(pending, policy, totalNodes) {
        pending := pending.(status := Applied);
        schemas := schemas[pending.modelName := pending.newSpec];
        if saved {
          disk := disk[pending.newSpec.modelName := pending.newSpec];
        }
      }
      changes := changes[id := pending];
      answer := Recorded(pending.status);
    }

    method HandleReject(id: nat, reason: Option<string>) returns (answer: Answer)
      modifies this
      ensures View() == Step(old(View()), RejectByHand(id, reason), policy, totalNodes)
      ensures answer == if id !in old(changes) then NotFound
                        else if old(changes)[id].status != Pending then Conflict
                        else Recorded(Rejected)
    {
      if id in changes {
        if changes[id].status != Pending {
          return Conflict;
        }
        changes := changes[id := changes[id].(status := Rejected, rejectionReason := reason)];
        answer := Recorded(Rejected);
      } else {
        answer := NotFound;
      }
    }
  }

  // ---------------------------------------------------------------- lifecycle over whole runs

  /**
    A run of the handlers from any state. A proposal carries whatever record its sender wrote, under any
    id.
   */
  ghost predicate Run(states: seq<State>, events: seq<Event>, policy: VotePolicy, totalNodes: nat) {
    && |states| == |events| + 1
    && forall k :: 0 <= k < |events| ==> states[k + 1] == Step(states[k], events[k], policy, totalNodes)
  }

  /** No proposal replaces the record between steps j and k. */
  ghost predicate NotReplaced(events: seq<Event>, policy: VotePolicy, id: nat, j: nat, k: nat)
    requires k <= |events|
  {
    forall m :: j <= m < k && IsStored(events[m], policy) ==> events[m].id != id
  }

  /**
    A decided record never changes again, neither its status, nor its tallies, nor its reason, unless
    a proposal under its id replaces it.
   */
  lemma {:induction false} DecidedIsFinal(
      states: seq<State>, events: seq<Event>, policy: VotePolicy, totalNodes: nat, id: nat, j: nat, k: nat)
    requires Run(states, events, policy, totalNodes) && j <= k <= |events|
    requires id in states[j].changes && states[j].changes[id].status != Pending
    requires NotReplaced(events, policy, id, j, k)
    ensures id in states[k].changes && states[k].changes[id] == states[j].changes[id]
  {
    if j < k {
      DecidedIsFinal(states, events, policy, totalNodes, id, j, k - 1);
      assert states[k - 1 + 1] == Step(states[k - 1], events[k - 1], policy, totalNodes);
    }
  }

  /** A change leaves Pending in at most one step of a run, unless a proposal replaces it in between. */
  lemma DecidedOnce(
      states: seq<State>, events: seq<Event>, policy: VotePolicy, totalNodes: nat, id: nat, j: nat, k: nat)
    requires Run(states, events, policy, totalNodes) && j <= k < |events|
    requires id in states[j].changes && states[j].changes[id].status == Pending
    requires id in states[j + 1].changes && states[j + 1].changes[id].status != Pending
    requires id in states[k].changes && states[k].changes[id].status == Pending
    requires NotReplaced(events, policy, id, j + 1, k)
    ensures j == k
  {
    if j < k {
      DecidedIsFinal(states, events, policy, totalNodes, id, j + 1, k);
    }
  }

  /**
    The current specification of a model changes only in a step that decides one pending change of
    that model as applied, or auto-accepts a proposal for it, and then it becomes exactly that
    change's specification.
   */
  lemma SchemaChangesOnlyByApplying(s: State, e: Event, policy: VotePolicy, totalNodes: nat, model: string)
    ensures var t := Step(s, e, policy, totalNodes);
            SameSpec(s, t, model) || AutoAccepts(s, e, t, policy, model) || Decides(s, e, t, model)
  {
  }

  ghost predicate SameSpec(s: State, t: State, model: string) {
    && (model in s.schemas <==> model in t.schemas)
    && (model in s.schemas ==> t.schemas[model] == s.schemas[model])
  }

  ghost predicate AutoAccepts(s: State, e: Event, t: State, policy: VotePolicy, model: string) {
    && e.Propose?
    && StrategyFor(policy, e.change.overall).AutoAccept?
    && e.change.modelName == model
    && t.schemas == s.schemas[model := e.change.newSpec]
  }

  /** The event turns one pending change of the model into an applied one and installs its specification. */
  ghost predicate Decides(s: State, e: Event, t: State, model: string) {
    && !e.Propose?
    && e.id in s.changes && s.changes[e.id].status == Pending && s.changes[e.id].modelName == model
    && e.id in t.changes && t.changes[e.id].status == Applied
    && t.schemas == s.schemas[model := s.changes[e.id].newSpec]
  }

  /** Once a change is decided, no vote, approval or rejection of it alters anything at all. */
  lemma DecidedIgnoresEvents(s: State, e: Event, policy: VotePolicy, totalNodes: nat)
    requires !e.Propose? && e.id in s.changes && s.changes[e.id].status != Pending
    ensures Step(s, e, policy, totalNodes) == s
  {
  }

  // ---------------------------------------------------------------- tallies

  predicate Distinct<T(==)>(list: seq<T>) {
    forall i, j :: 0 <= i < j < |list| ==> list[i] != list[j]
  }

  /** Votes are counted once per voter, and an applied change had the approvals its policy asks for. */
  ghost predicate RecordOk(p: PendingChange, policy: VotePolicy, totalNodes: nat) {
    && Distinct(p.approvals) && Distinct(p.rejections) && Distinct(p.humanApprovals)
    && (p.status == Applied ==> HasEnoughApprovals(p, policy, totalNodes))
    && (p.status == Pending && StrategyFor(policy, p.overall).Consensus? ==> !HasEnoughApprovals(p, policy, totalNodes))
  }

  ghost predicate RecordsOk(s: State, policy: VotePolicy, totalNodes: nat) {
    forall id :: id in s.changes ==> RecordOk(s.changes[id], policy, totalNodes)
  }

  /** A proposal that is stored brings a record that is in order. */
  ghost predicate ProposalOk(e: Event, policy: VotePolicy, totalNodes: nat) {
    IsStored(e, policy) ==> RecordOk(e.change, policy, totalNodes)
  }

  /** A record without votes that is pending is in order. */
  lemma NewRecordIsOk(p: PendingChange, policy: VotePolicy, totalNodes: nat)
    requires p.status == Pending && p.approvals == [] && p.rejections == [] && p.humanApprovals == []
    ensures RecordOk(p, policy, totalNodes)
  {
  }

  lemma VotedIsOk(p: PendingChange, e: Event, policy: VotePolicy, totalNodes: nat)
    requires e.Vote? && RecordOk(p, policy, totalNodes)
    ensures RecordOk(Voted(p, e, policy, totalNodes), policy, totalNodes)
  {
  }

  lemma ApprovedIsOk(p: PendingChange, userId: string, policy: VotePolicy, totalNodes: nat)
    requires p.status == Pending && RecordOk(p, policy, totalNodes)
    ensures RecordOk(WithApproval(p, userId, policy, totalNodes), policy, totalNodes)
  {
  }

  /** A step leaves the record of an id in order when it was, or is replaced by one that is. */
  lemma StepKeepsRecord(s: State, e: Event, policy: VotePolicy, totalNodes: nat, id: nat)
    requires id in s.changes ==> RecordOk(s.changes[id], policy, totalNodes)
    requires e.id == id ==> ProposalOk(e, policy, totalNodes)
    ensures var t := Step(s, e, policy, totalNodes);
            id in t.changes ==> RecordOk(t.changes[id], policy, totalNodes)
  {
    if e.id == id && id in s.changes && s.changes[id].status == Pending {
      if e.Vote? {
        VotedIsOk(s.changes[id], e, policy, totalNodes);
      } else if e.Approve? {
        ApprovedIsOk(s.changes[id], e.userId, policy, totalNodes);
      }
    }
  }

  /** A step keeps every record in order exactly when a record it stores is in order itself. */
  lemma StepKeepsRecordsIff(s: State, e: Event, policy: VotePolicy, totalNodes: nat)
    requires RecordsOk(s, policy, totalNodes)
    ensures RecordsOk(Step(s, e, policy, totalNodes), policy, totalNodes) <==> ProposalOk(e, policy, totalNodes)
  {
    var t := Step(s, e, policy, totalNodes);
    if ProposalOk(e, policy, totalNodes) {
      forall id | id in t.changes
        ensures RecordOk(t.changes[id], policy, totalNodes)
      {
        StepKeepsRecord(s, e, policy, totalNodes, id);
      }
    } else {
      assert e.id in t.changes && !RecordOk(t.changes[e.id], policy, totalNodes);
    }
  }

  ghost predicate AlwaysOk(states: seq<State>, k: nat, policy: VotePolicy, totalNodes: nat)
    requires k < |states|
  {
    forall j :: 0 <= j <= k ==> RecordsOk(states[j], policy, totalNodes)
  }

  ghost predicate ProposalsOk(events: seq<Event>, k: nat, policy: VotePolicy, totalNodes: nat)
    requires k <= |events|
  {
    forall j :: 0 <= j < k ==> ProposalOk(events[j], policy, totalNodes)
  }

  /**
    Over whole runs: every record of every state is in order exactly when those at the start and every
    stored proposal were.
   */
  lemma {:induction false} RunKeepsRecordsIff(
      states: seq<State>, events: seq<Event>, policy: VotePolicy, totalNodes: nat, k: nat)
    requires Run(states, events, policy, totalNodes) && k <= |events|
    ensures AlwaysOk(states, k, policy, totalNodes) <==>
            RecordsOk(states[0], policy, totalNodes) && ProposalsOk(events, k, policy, totalNodes)
  {
    if k > 0 {
      RunKeepsRecordsIff(states, events, policy, totalNodes, k - 1);
      assert states[k - 1 + 1] == Step(states[k - 1], events[k - 1], policy, totalNodes);
      if RecordsOk(states[k - 1], policy, totalNodes) {
        StepKeepsRecordsIff(states[k - 1], events[k - 1], policy, totalNodes);
      }
      AlwaysOkUnfolds(states, k, policy, totalNodes);
    }
  }

  lemma AlwaysOkUnfolds(states: seq<State>, k: nat, policy: VotePolicy, totalNodes: nat)
    requires 0 < k < |states|
    ensures AlwaysOk(states, k, policy, totalNodes) <==>
            AlwaysOk(states, k - 1, policy, totalNodes) && RecordsOk(states[k], policy, totalNodes)
    ensures AlwaysOk(states, k - 1, policy, totalNodes) ==> RecordsOk(states[k - 1], policy, totalNodes)
  {
  }

  /** The record of an id at the start, and the first k proposals under that id, are in order. */
  ghost predicate InOrderFor(start: State, events: seq<Event>, policy: VotePolicy, totalNodes: nat, k: nat, id: nat)
    requires k <= |events|
  {
    && (id in start.changes ==> RecordOk(start.changes[id], policy, totalNodes))
    && forall j :: 0 <= j < k && events[j].id == id ==> ProposalOk(events[j], policy, totalNodes)
  }

  /** A record stays in order when the proposals under its own id were, whatever else is proposed. */
  lemma {:induction false} RunKeepsRecords(
      states: seq<State>, events: seq<Event>, policy: VotePolicy, totalNodes: nat, k: nat, id: nat)
    requires Run(states, events, policy, totalNodes) && k <= |events|
    requires InOrderFor(states[0], events, policy, totalNodes, k, id)
    ensures id in states[k].changes ==> RecordOk(states[k].changes[id], policy, totalNodes)
  {
    if k > 0 {
      RunKeepsRecords(states, events, policy, totalNodes, k - 1, id);
      assert states[k - 1 + 1] == Step(states[k - 1], events[k - 1], policy, totalNodes);
      StepKeepsRecord(states[k - 1], events[k - 1], policy, totalNodes, id);
    }
  }

  function Voters<T(==)>(list: seq<T>): set<T> {
    set n | n in list
  }

  lemma {:induction false} DistinctCardinality<T>(list: seq<T>)
    requires Distinct(list)
    ensures |Voters(list)| == |list|
  {
    if list != [] {
      var front, last := list[..|list| - 1], list[|list| - 1];
      DistinctCardinality(front);
      assert list == front + [last];
      assert last !in Voters(front);
      assert Voters(list) == Voters(front) + {last};
    }
  }

  /**
    Under the consensus strategy, a record that was in order when it was stored is applied only when a
    majority of different nodes has approved it, and is never left pending with such a majority; so
    while it is pending or applied, it is applied exactly when a majority has approved it.
   */
  lemma AppliedByConsensusIffMajority(
      states: seq<State>, events: seq<Event>, policy: VotePolicy, totalNodes: nat, k: nat, id: nat)
    requires Run(states, events, policy, totalNodes) && k <= |events|
    requires InOrderFor(states[0], events, policy, totalNodes, k, id)
    requires id in states[k].changes && StrategyFor(policy, states[k].changes[id].overall).Consensus?
    ensures var p := states[k].changes[id];
            var majority := 2 * |Voters(p.approvals)| > totalNodes;
            && (p.status == Applied ==> majority)
            && (p.status == Pending ==> !majority)
            && ((p.status == Applied <==> majority) <==> (majority ==> p.status == Pending || p.status == Applied))
  {
    RunKeepsRecords(states, events, policy, totalNodes, k, id);
    DistinctCardinality(states[k].changes[id].approvals);
  }

  // ---------------------------------------------------------------- what startup leaves behind

  /** The record that startup validation makes of a change it proposes. */
  function FromStartup(p: V.Proposal): PendingChange {
    PendingChange(p.modelName, p.newSpec, OverallStrategy(p.changes), Pending, None, [], [], [], None)
  }

  /** A state whose changes are those startup validation has proposed, under ids of their own. */
  ghost predicate IsStartup(s: State, proposals: seq<V.Proposal>) {
    forall id :: id in s.changes ==> exists p :: p in proposals && s.changes[id] == FromStartup(p)
  }

  /** Runs that go on from startup validation begin with all records in order, whatever it proposed. */
  lemma StartupIsInOrder(s: State, proposals: seq<V.Proposal>, policy: VotePolicy, totalNodes: nat)
    requires IsStartup(s, proposals)
    ensures RecordsOk(s, policy, totalNodes)
  {
    forall id | id in s.changes
      ensures RecordOk(s.changes[id], policy, totalNodes)
    {
      NewRecordIsOk(s.changes[id], policy, totalNodes);
    }
  }

  // ---------------------------------------------------------------- proposals that are not in order

  const BY_CONSENSUS := VotePolicy(Consensus, Consensus, Consensus)

  function Proposed(status: Status, approvals: seq<nat>): PendingChange {
    PendingChange("Product", ModelSpec("Product", 2, map[], [], []), Breaking, status, None, approvals, [], [], None)
  }

  /** The run of a single proposal on three nodes. */
  function AfterProposal(p: PendingChange): State {
    Step(State(map[], map[], map[]), Propose(1, p, 0), BY_CONSENSUS, 3)
  }

  /** A proposal that brings two votes along stays pending with a majority. */
  lemma ProposedWithVotes()
    ensures var p := Proposed(Pending, [1, 2]);
            && Run([State(map[], map[], map[]), AfterProposal(p)], [Propose(1, p, 0)], BY_CONSENSUS, 3)
            && AfterProposal(p).changes[1].status == Pending
            && 2 * |Voters(AfterProposal(p).changes[1].approvals)| > 3
            && !RecordOk(p, BY_CONSENSUS, 3)
  {
    DistinctCardinality<nat>([1, 2]);
  }

  /** A proposal that says it is applied counts as applied without a vote and without its specification. */
  lemma ProposedAsApplied()
    ensures var p := Proposed(Applied, []);
            && Run([State(map[], map[], map[]), AfterProposal(p)], [Propose(1, p, 0)], BY_CONSENSUS, 3)
            && AfterProposal(p).changes[1].status == Applied && AfterProposal(p).schemas == map[]
            && 2 * |Voters(AfterProposal(p).changes[1].approvals)| <= 3
            && !RecordOk(p, BY_CONSENSUS, 3)
  {
    DistinctCardinality<nat>([]);
  }

  /** A proposal that says it has expired is in order and has a majority, yet is not applied. */
  lemma ProposedAsExpired()
    ensures var p := Proposed(Expired, [1, 2]);
            && Run([State(map[], map[], map[]), AfterProposal(p)], [Propose(1, p, 0)], BY_CONSENSUS, 3)
            && AfterProposal(p).changes[1].status == Expired
            && 2 * |Voters(AfterProposal(p).changes[1].approvals)| > 3
            && RecordOk(p, BY_CONSENSUS, 3)
  {
    DistinctCardinality<nat>([1, 2]);
  }
}
