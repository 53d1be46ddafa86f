/** Counting acknowledgements: when a replication round reports success, and with what commit index. */
module Replication {
  import opened Wrappers
  import opened ReplicatedLog

  datatype Health = Healthy | Lagging | Desynced | Unknown

  /** One finished request; `joined` is false when its task did not complete normally. */
  datatype Reply = Reply(peer: string, joined: bool, success: bool)

  /** Peers a request is sent to: all but the desynced ones; an unknown peer is tried. */
  function ActivePeers(peers: seq<string>, health: map<string, Health>): (active: seq<string>)
    ensures |active| <= |peers|
  {
    if peers == [] then []
    else
      var rest := ActivePeers(peers[1..], health);
      if peers[0] in health && health[peers[0]].Desynced? then rest else [peers[0]] + rest
  }

  predicate Counts(r: Reply) {
    r.joined && r.success
  }

  function Successes(replies: seq<Reply>): (n: nat)
    ensures n <= |replies|
  {
    if replies == [] then 0
    else Successes(replies[..|replies| - 1]) + if Counts(replies[|replies| - 1]) then 1 else 0
  }

  function PeersOf(replies: seq<Reply>): (peers: seq<string>)
    ensures |peers| == |replies|
  {
    if replies == [] then [] else PeersOf(replies[..|replies| - 1]) + [replies[|replies| - 1].peer]
  }

  /** The replies come from peers a request was sent to, one at most for each request. */
  ghost predicate RepliesTo(active: seq<string>, replies: seq<Reply>) {
    multiset(PeersOf(replies)) <= multiset(active)
  }

  ghost predicate Distinct(peers: seq<string>) {
    forall p :: multiset(peers)[p] <= 1
  }

  /** The configured peers that have answered success. */
  ghost function Confirming(peers: seq<string>, replies: seq<Reply>): set<string> {
    set p | p in peers && exists k :: 0 <= k < |replies| && replies[k] == Reply(p, true, true)
  }

  /** A request goes to a peer as often as it is configured, unless it is known to be desynced. */
  lemma {:induction false} AsksAllButDesynced(peers: seq<string>, health: map<string, Health>, p: string)
    ensures multiset(ActivePeers(peers, health))[p] ==
              if p in health && health[p] == Desynced then 0 else multiset(peers)[p]
  {
    if peers != [] {
      AsksAllButDesynced(peers[1..], health, p);
      assert peers == [peers[0]] + peers[1..];
    }
  }

  /** What is counted are the replies that have joined and report success. */
  lemma {:induction false} SuccessesAreReplies(replies: seq<Reply>)
    ensures Successes(replies) == |set k | 0 <= k < |replies| && replies[k].joined && replies[k].success|
  {
    var counted := set k | 0 <= k < |replies| && replies[k].joined && replies[k].success;
    if replies == [] {
      assert counted == {};
    } else {
      var last := |replies| - 1;
      var front := replies[..last];
      SuccessesAreReplies(front);
      var before := set k | 0 <= k < |front| && front[k].joined && front[k].success;
      assert counted == if replies[last].joined && replies[last].success then before + {last} else before;
    }
  }

  lemma {:induction false} PeerOfReply(replies: seq<Reply>, k: nat)
    requires k < |replies|
    ensures PeersOf(replies)[k] == replies[k].peer
  {
    if k < |replies| - 1 {
      PeerOfReply(replies[..|replies| - 1], k);
    }
  }

  lemma ConfirmingNext(peers: seq<string>, front: seq<Reply>, r: Reply)
    requires r.peer in peers
    ensures Confirming(peers, front + [r]) == Confirming(peers, front) + if r.joined && r.success then {r.peer} else {}
  {
    var all := front + [r];
    assert all[|front|] == r && forall k :: 0 <= k < |front| ==> all[k] == front[k];
  }

  lemma NotYetConfirmed(peers: seq<string>, replies: seq<Reply>, p: string)
    requires multiset(PeersOf(replies))[p] == 0
    ensures p !in Confirming(peers, replies)
  {
    forall k: nat | k < |replies|
      ensures replies[k].peer != p
    {
      PeerOfReply(replies, k);
      assert replies[k].peer in multiset(PeersOf(replies));
    }
  }

  lemma LastIsNew(front: seq<string>, p: string)
    requires forall q :: multiset(front + [p])[q] <= 1
    ensures multiset(front)[p] == 0 && forall q :: multiset(front)[q] <= 1
  {
    assert multiset(front + [p])[p] == multiset(front)[p] + 1;
    forall q
      ensures multiset(front)[q] <= 1
    {
      assert multiset(front + [p])[q] <= 1;
    }
  }

  lemma {:induction false} ConfirmingCount(peers: seq<string>, replies: seq<Reply>)
    requires forall p :: multiset(PeersOf(replies))[p] <= 1
    requires forall k :: 0 <= k < |replies| ==> replies[k].peer in peers
    ensures |Confirming(peers, replies)| == Successes(replies)
  {
    if replies == [] {
      assert Confirming(peers, replies) == {};
    } else {
      var front, r := replies[..|replies| - 1], replies[|replies| - 1];
      assert replies == front + [r] && PeersOf(replies) == PeersOf(front) + [r.peer];
      LastIsNew(PeersOf(front), r.peer);
      ConfirmingCount(peers, front);
      ConfirmingNext(peers, front, r);
      NotYetConfirmed(peers, front, r.peer);
    }
  }

  /** Different peers are counted once each. */
  lemma EachPeerCountsOnce(peers: seq<string>, health: map<string, Health>, replies: seq<Reply>)
    requires Distinct(peers) && RepliesTo(ActivePeers(peers, health), replies)
    ensures |Confirming(peers, replies)| == Successes(replies)
  {
    forall p
      ensures multiset(PeersOf(replies))[p] <= multiset(peers)[p]
    {
      AsksAllButDesynced(peers, health, p);
    }
    forall k | 0 <= k < |replies|
      ensures replies[k].peer in peers
    {
      PeerOfReply(replies, k);
      assert replies[k].peer in PeersOf(replies);
      assert replies[k].peer in multiset(PeersOf(replies));
    }
    ConfirmingCount(peers, replies);
  }

  /**
    Sends to the peers that are not desynced and goes through their replies in the order they arrive
    before the deadline. Success is decided by the count alone: the leader and the successes must be a
    majority of all configured nodes, the skipped ones included.
   */
  method ReplicateLogEntries(
      peers: seq<string>, health: map<string, Health>, entries: seq<nat>, leaderCommit: nat, replies: seq<Reply>)
      returns (result: Result<nat>)
    requires RepliesTo(ActivePeers(peers, health), replies)
    ensures result.Ok? <==>
              peers == [] ||
              2 * (1 + |set k | 0 <= k < |replies| && replies[k].joined && replies[k].success|) > |peers| + 1
    ensures Distinct(peers) ==>
              (result.Ok? <==> peers == [] || 2 * (1 + |Confirming(peers, replies)|) > |peers| + 1)
    ensures peers != [] && (forall k :: 0 <= k < |replies| ==> !(replies[k].joined && replies[k].success)) ==>
              result.Err?
    ensures result.Ok? ==>
              result.value == if peers == [] || entries == [] then leaderCommit else entries[|entries| - 1]
    ensures peers != [] && |ActivePeers(peers, health)| + 1 < Majority(|peers| + 1) ==> result.Err?
  {
    if |peers| == 0 {
      return Ok(leaderCommit);
    }
    var totalNodes := |peers| + 1;
    var neededFromFollowers := Majority(totalNodes) - 1;
    var successCount, majorityReached, commitIndex := 0, false, leaderCommit;
    for i := 0 to |replies|
      invariant successCount == Successes(replies[..i])
      invariant majorityReached <==> successCount >= neededFromFollowers
      invariant majorityReached ==> commitIndex == if entries == [] then leaderCommit else entries[|entries| - 1]
    {
      assert replies[..i + 1][..i] == replies[..i];
      if replies[i].joined {
        if replies[i].success {
          successCount := successCount + 1;
          if successCount >= neededFromFollowers && !majorityReached {
            majorityReached := true;
            commitIndex := if |entries| == 0 then leaderCommit else entries[|entries| - 1];
          }
        }
      }
    }
    assert replies[..|replies|] == replies;
    SuccessesAreReplies(replies);
    if Distinct(peers) {
      EachPeerCountsOnce(peers, health, replies);
    }
    if |ActivePeers(peers, health)| + 1 < Majority(|peers| + 1) {
      SkippedFollowersStillCount(peers, health, replies);
    }
    if majorityReached {
      return Ok(commitIndex);
    } else {
      return Err("Failed to reach majority");
    }
  }

  // ---------------------------------------------------------------- order, and skipped followers

  lemma {:induction false} SuccessesConcat(a: seq<Reply>, b: seq<Reply>)
    ensures Successes(a + b) == Successes(a) + Successes(b)
  {
    if b == [] {
      assert a + b == a;
    } else {
      assert (a + b)[..|a + b| - 1] == a + b[..|b| - 1];
      SuccessesConcat(a, b[..|b| - 1]);
    }
  }

  /** The outcome does not depend on the order in which the replies arrive. */
  lemma {:induction false} ArrivalOrderIsIrrelevant(a: seq<Reply>, b: seq<Reply>)
    requires multiset(a) == multiset(b)
    ensures Successes(a) == Successes(b)
    decreases |a|
  {
    if a == [] {
      assert |multiset(b)| == 0;
    } else {
      var last := a[|a| - 1];
      var front := a[..|a| - 1];
      assert a == front + [last];
      assert last in multiset(b);
      var k :| 0 <= k < |b| && b[k] == last;
      var others := b[..k] + b[k + 1..];
      assert b == b[..k] + [last] + b[k + 1..];
      assert multiset(others) == multiset(b) - multiset{last};
      ArrivalOrderIsIrrelevant(front, others);
      SuccessesConcat(b[..k], b[k + 1..]);
      SuccessesConcat(b[..k], [last]);
      SuccessesConcat(b[..k] + [last], b[k + 1..]);
    }
  }

  lemma FewerReplies(active: seq<string>, replies: seq<Reply>)
    requires RepliesTo(active, replies)
    ensures |replies| <= |active|
  {
    var rest := multiset(active) - multiset(PeersOf(replies));
    assert multiset(active) == multiset(PeersOf(replies)) + rest;
    assert |multiset(active)| == |active| && |multiset(PeersOf(replies))| == |PeersOf(replies)|;
  }

  /**
    Skipped followers still count in the total: when too few are left to ask, no replies from those
    that were asked reach a majority.
   */
  lemma SkippedFollowersStillCount(peers: seq<string>, health: map<string, Health>, replies: seq<Reply>)
    requires RepliesTo(ActivePeers(peers, health), replies)
    requires |ActivePeers(peers, health)| + 1 < Majority(|peers| + 1)
    ensures Successes(replies) + 1 < Majority(|peers| + 1)
  {
    FewerReplies(ActivePeers(peers, health), replies);
  }

  function AllSucceed(active: seq<string>): (replies: seq<Reply>)
    ensures PeersOf(replies) == active && Successes(replies) == |active|
  {
    if active == [] then []
    else
      var front := AllSucceed(active[..|active| - 1]);
      var replies := front + [Reply(active[|active| - 1], true, true)];
      assert replies[..|replies| - 1] == front && active == active[..|active| - 1] + [active[|active| - 1]];
      replies
  }

  /** Some replies reach a majority exactly when the leader and the peers it asks are one. */
  lemma MajorityIsPossibleIff(peers: seq<string>, health: map<string, Health>)
    ensures (exists replies :: RepliesTo(ActivePeers(peers, health), replies)
                               && Successes(replies) + 1 >= Majority(|peers| + 1))
            <==> |ActivePeers(peers, health)| + 1 >= Majority(|peers| + 1)
  {
    var active := ActivePeers(peers, health);
    if |active| + 1 >= Majority(|peers| + 1) {
      assert RepliesTo(active, AllSucceed(active));
    } else {
      forall replies | RepliesTo(active, replies)
        ensures Successes(replies) + 1 < Majority(|peers| + 1)
      {
        SkippedFollowersStillCount(peers, health, replies);
      }
    }
  }

  /** A round succeeds exactly when the acknowledging nodes outnumber all the others. */
  lemma MajorityMeansMoreThanHalf(acknowledging: nat, peers: nat)
    ensures acknowledging + 1 >= Majority(peers + 1) <==> 2 * (acknowledging + 1) > peers + 1
  {
  }
}
