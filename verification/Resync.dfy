/**
  Snapshot resync of desynced followers: the background loop that checks every so many ticks, skips
  followers in cooldown and starts a bounded number of sends. Times are in milliseconds.
 */
module Resync {
  import opened Wrappers

  datatype Config = Config(checkIntervalMs: nat, cooldownMs: nat, maxConcurrent: nat)

  /** One tick of the loop, with what the node observes at it. */
  datatype Tick = Tick(now: nat, isLeader: bool, desynced: seq<string>, snapshotCreated: bool)

  /** The clock does not run backwards, and a follower is listed as desynced at most once per check. */
  ghost predicate Observable(ticks: seq<Tick>) {
    && (forall i, j :: 0 <= i <= j < |ticks| ==> ticks[i].now <= ticks[j].now)
    && forall t :: 0 <= t < |ticks| ==> NoDuplicates(ticks[t].desynced)
  }

  predicate NoDuplicates(peers: seq<string>) {
    forall i, j :: 0 <= i < j < |peers| ==> peers[i] != peers[j]
  }

  predicate Eligible(lastResync: map<string, nat>, peer: string, now: nat, cooldown: nat) {
    peer in lastResync ==> now - lastResync[peer] >= cooldown
  }

  /** The desynced followers that are not in cooldown, in their order. */
  function EligiblePeers(desynced: seq<string>, lastResync: map<string, nat>, now: nat, cooldown: nat): (peers: seq<string>)
    ensures forall p :: p in peers <==> p in desynced && Eligible(lastResync, p, now, cooldown)
    ensures NoDuplicates(desynced) ==> NoDuplicates(peers)
  {
    if desynced == [] then []
    else
      var front, last := desynced[..|desynced| - 1], desynced[|desynced| - 1];
      assert desynced == front + [last];
      var rest := EligiblePeers(front, lastResync, now, cooldown);
      assert NoDuplicates(desynced) ==> NoDuplicates(front) && last !in front;
      if Eligible(lastResync, last, now, cooldown) then rest + [last] else rest
  }

  /** The followers a snapshot send is started to at each tick. */
  ghost predicate Spaced(ticks: seq<Tick>, started: seq<seq<string>>, cooldown: nat) {
    |started| <= |ticks| &&
    forall s, t, p :: 0 <= s < t < |started| && p in started[s] && p in started[t] ==>
      ticks[t].now - ticks[s].now >= cooldown
  }

  ghost predicate Bounded(config: Config, ticks: seq<Tick>, started: seq<seq<string>>) {
    |started| <= |ticks| &&
    forall t :: 0 <= t < |started| ==>
      && |started[t]| <= config.maxConcurrent
      && NoDuplicates(started[t])
      && forall p :: p in started[t] ==> p in ticks[t].desynced && ticks[t].isLeader && ticks[t].snapshotCreated
  }

  /** How many of the first n ticks found the node leading. */
  function LeaderTicks(ticks: seq<Tick>, n: nat): nat
    requires n <= |ticks|
  {
    if n == 0 then 0 else LeaderTicks(ticks, n - 1) + if ticks[n - 1].isLeader then 1 else 0
  }

  lemma {:induction false} LeaderTicksCount(ticks: seq<Tick>, n: nat)
    requires n <= |ticks|
    ensures LeaderTicks(ticks, n) == |set t | 0 <= t < n && ticks[t].isLeader|
  {
    var leading := set t | 0 <= t < n && ticks[t].isLeader;
    if n == 0 {
      assert leading == {};
    } else {
      LeaderTicksCount(ticks, n - 1);
      var before := set t | 0 <= t < n - 1 && ticks[t].isLeader;
      assert leading == if ticks[n - 1].isLeader then before + {n - 1} else before;
    }
  }

  /** A base tick is 100 ms; an interval below that checks at every tick. */
  function CheckEvery(config: Config): (k: nat)
    ensures k > 0
  {
    if config.checkIntervalMs < 100 then 1 else config.checkIntervalMs / 100
  }

  /** The ticks between two checks last as long as configured, rounded down to whole ticks, and one tick at least. */
  lemma CheckIntervalInTicks(config: Config)
    ensures config.checkIntervalMs < 100 ==> CheckEvery(config) == 1
    ensures config.checkIntervalMs >= 100 ==>
              100 * CheckEvery(config) <= config.checkIntervalMs < 100 * CheckEvery(config) + 100
  {
  }

  /** Every CheckEvery-th tick as leader is a check. */
  ghost predicate IsCheck(config: Config, ticks: seq<Tick>, t: nat)
    requires t < |ticks|
  {
    ticks[t].isLeader && LeaderTicks(ticks, t + 1) % CheckEvery(config) == 0
  }

  /** No earlier start to the follower is closer than the cooldown. */
  ghost predicate Due(config: Config, ticks: seq<Tick>, started: seq<seq<string>>, t: nat, p: string)
    requires t <= |started| <= |ticks| && t < |ticks|
  {
    p in ticks[t].desynced &&
    forall s :: 0 <= s < t && p in started[s] ==> ticks[t].now - ticks[s].now >= config.cooldownMs
  }

  /**
    Only checks start sends; a check with a snapshot starts one to every due follower, or as many as
    allowed, and then to those listed first.
   */
  ghost predicate LeavesNobodyOut(config: Config, ticks: seq<Tick>, started: seq<seq<string>>) {
    |started| <= |ticks| &&
    forall t :: 0 <= t < |started| ==> TickServed(config, ticks, started, t, started[t])
  }

  ghost predicate TickServed(config: Config, ticks: seq<Tick>, started: seq<seq<string>>, t: nat, chosen: seq<string>)
    requires t <= |started| <= |ticks| && t < |ticks|
  {
    && (!IsCheck(config, ticks, t) ==> chosen == [])
    && (IsCheck(config, ticks, t) && ticks[t].snapshotCreated && |chosen| < config.maxConcurrent ==>
          forall p :: Due(config, ticks, started, t, p) ==> p in chosen)
    && forall a, b :: 0 <= a < b < |ticks[t].desynced| && ticks[t].desynced[b] in chosen ==>
         Due(config, ticks, started, t, ticks[t].desynced[a]) ==> ticks[t].desynced[a] in chosen
  }

  /** `lastResync` holds the time of each follower's latest start. */
  ghost predicate Remembers(ticks: seq<Tick>, started: seq<seq<string>>, lastResync: map<string, nat>) {
    && |started| <= |ticks|
    && (forall t, p :: 0 <= t < |started| && p in started[t] ==> p in lastResync && ticks[t].now <= lastResync[p])
    && forall p :: p in lastResync ==>
         exists t :: 0 <= t < |started| && p in started[t] && ticks[t].now == lastResync[p]
  }

  function MarkAll(lastResync: map<string, nat>, peers: seq<string>, now: nat): (marked: map<string, nat>)
    ensures forall p :: p in marked <==> p in lastResync || p in peers
    ensures forall p :: p in marked ==> marked[p] == if p in peers then now else lastResync[p]
  {
    map p | p in lastResync.Keys + (set q | q in peers) :: if p in peers then now else lastResync[p]
  }

  /**
    The background loop. Two sends to one follower are started at least a cooldown apart, each check
    starts at most the configured number, only to desynced followers without a cooldown, and leaves
    such a follower out only when that number is reached.
   */
  method RunLoop(config: Config, ticks: seq<Tick>) returns (started: seq<seq<string>>)
    requires Observable(ticks)
    ensures |started| == |ticks|
    ensures Spaced(ticks, started, config.cooldownMs)
    ensures Bounded(config, ticks, started)
    ensures LeavesNobodyOut(config, ticks, started)
  {
    started := [];
    var resyncCounter := 0;
    var lastResync: map<string, nat> := map[];
    var resyncCheckTicks := config.checkIntervalMs / 100;
    for t := 0 to |ticks|
      invariant |started| == t && KeepsPace(config, ticks, started, lastResync)
      invariant resyncCounter == LeaderTicks(ticks, t) % CheckEvery(config)
    {
      NextRemainder(LeaderTicks(ticks, t), CheckEvery(config));
      var tick := ticks[t];
      var chosen: seq<string> := [];
      if tick.isLeader {
        resyncCounter := resyncCounter + 1;
        if resyncCounter >= resyncCheckTicks {
          resyncCounter := 0;
          var eligible := EligiblePeers(tick.desynced, lastResync, tick.now, config.cooldownMs);
          if eligible != [] && tick.snapshotCreated {
            chosen := Take(eligible, config.maxConcurrent);
          }
          CheckServes(config, ticks, started, lastResync, chosen, t);
        }
      }
      TickKeepsPace(config, ticks, started, lastResync, chosen, t);
      started := started + [chosen];
      lastResync := MarkAll(lastResync, chosen, tick.now);
    }
  }

  function Take(peers: seq<string>, n: nat): (taken: seq<string>)
    ensures |taken| <= n && taken <= peers
    ensures |taken| < n ==> taken == peers
  {
    if |peers| <= n then peers else peers[..n]
  }

  ghost predicate KeepsPace(
      config: Config, ticks: seq<Tick>, started: seq<seq<string>>, lastResync: map<string, nat>)
  {
    && Spaced(ticks, started, config.cooldownMs)
    && Bounded(config, ticks, started)
    && LeavesNobodyOut(config, ticks, started)
    && Remembers(ticks, started, lastResync)
  }

  lemma TickKeepsPace(
      config: Config, ticks: seq<Tick>, started: seq<seq<string>>, lastResync: map<string, nat>,
      chosen: seq<string>, t: nat)
    requires Observable(ticks) && t < |ticks| && |started| == t && KeepsPace(config, ticks, started, lastResync)
    requires MayStart(config, ticks[t], lastResync, chosen) && TickServed(config, ticks, started, t, chosen)
    ensures KeepsPace(config, ticks, started + [chosen], MarkAll(lastResync, chosen, ticks[t].now))
  {
    StartedAfter(config, ticks, started, lastResync, chosen, t);
    ServedAfter(config, ticks, started, chosen, t);
    RemembersAfter(ticks, started, lastResync, chosen, t);
  }

  /** What a check starts is allowed, and leaves no due follower out. */
  lemma CheckServes(
      config: Config, ticks: seq<Tick>, started: seq<seq<string>>, lastResync: map<string, nat>,
      chosen: seq<string>, t: nat)
    requires Observable(ticks) && t < |ticks| && |started| == t && Remembers(ticks, started, lastResync)
    requires IsCheck(config, ticks, t)
    requires chosen == if ticks[t].snapshotCreated
                       then Take(EligiblePeers(ticks[t].desynced, lastResync, ticks[t].now, config.cooldownMs),
                                 config.maxConcurrent)
                       else []
    ensures MayStart(config, ticks[t], lastResync, chosen) && TickServed(config, ticks, started, t, chosen)
  {
    DueIsEligible(config, ticks, started, lastResync, t);
    assert NoDuplicates(ticks[t].desynced);
    var eligible := EligiblePeers(ticks[t].desynced, lastResync, ticks[t].now, config.cooldownMs);
    assert forall p :: p in chosen ==> p in eligible;
    forall a, b | 0 <= a < b < |ticks[t].desynced| && ticks[t].desynced[b] in chosen &&
        Due(config, ticks, started, t, ticks[t].desynced[a])
      ensures ticks[t].desynced[a] in chosen
    {
      EarlierFirst(ticks[t].desynced, lastResync, ticks[t].now, config.cooldownMs, |chosen|, a, b);
      assert chosen == eligible[..|chosen|];
    }
  }

  /** Eligible followers keep their order: with a later one the first n contain every earlier one. */
  lemma {:induction false} EarlierFirst(
      desynced: seq<string>, lastResync: map<string, nat>, now: nat, cooldown: nat, n: nat, a: nat, b: nat)
    requires NoDuplicates(desynced) && a < b < |desynced| && Eligible(lastResync, desynced[a], now, cooldown)
    requires n <= |EligiblePeers(desynced, lastResync, now, cooldown)|
    requires desynced[b] in EligiblePeers(desynced, lastResync, now, cooldown)[..n]
    ensures desynced[a] in EligiblePeers(desynced, lastResync, now, cooldown)[..n]
  {
    var front, eligible := desynced[..|desynced| - 1], EligiblePeers(desynced, lastResync, now, cooldown);
    var rest := EligiblePeers(front, lastResync, now, cooldown);
    assert desynced == front + [desynced[|desynced| - 1]];
    if n == |eligible| {
      assert eligible[..n] == eligible;
    } else {
      assert eligible[..n] == rest[..n];
      assert desynced[b] in rest ==> desynced[b] in front;
      EarlierFirst(front, lastResync, now, cooldown, n, a, b);
    }
  }

  lemma NextRemainder(x: nat, k: nat)
    requires k > 0
    ensures (x + 1) % k == if x % k + 1 >= k then 0 else x % k + 1
  {
    var c := x % k;
    assert x == x / k * k + c;
    if c + 1 < k {
      RemainderIs(x + 1, x / k, c + 1, k);
    } else {
      RemainderIs(x + 1, x / k + 1, 0, k);
    }
  }

  lemma RemainderIs(x: nat, q: nat, c: nat, k: nat)
    requires c < k && x == q * k + c
    ensures x % k == c
  {
    var d := x / k - q;
    assert x % k == c - d * k;
    if d >= 1 {
      FactorMonotone(1, d, k);
    } else if d <= -1 {
      FactorMonotone(1, -d, k);
    }
  }

  lemma DueIsEligible(
      config: Config, ticks: seq<Tick>, started: seq<seq<string>>, lastResync: map<string, nat>, t: nat)
    requires t < |ticks| && |started| == t && Remembers(ticks, started, lastResync)
    ensures forall p :: Due(config, ticks, started, t, p) ==>
              p in ticks[t].desynced && Eligible(lastResync, p, ticks[t].now, config.cooldownMs)
  {
  }

  lemma ServedAfter(config: Config, ticks: seq<Tick>, started: seq<seq<string>>, chosen: seq<string>, t: nat)
    requires t < |ticks| && |started| == t
    requires LeavesNobodyOut(config, ticks, started) && TickServed(config, ticks, started, t, chosen)
    ensures LeavesNobodyOut(config, ticks, started + [chosen])
  {
    var longer := started + [chosen];
    forall u | 0 <= u < |longer|
      ensures TickServed(config, ticks, longer, u, longer[u])
    {
      assert TickServed(config, ticks, started, u, longer[u]);
      DueExtends(config, ticks, started, chosen, u);
    }
  }

  lemma DueExtends(config: Config, ticks: seq<Tick>, started: seq<seq<string>>, chosen: seq<string>, u: nat)
    requires u <= |started| < |ticks|
    ensures forall p :: Due(config, ticks, started + [chosen], u, p) ==> Due(config, ticks, started, u, p)
  {
    forall p | Due(config, ticks, started + [chosen], u, p)
      ensures Due(config, ticks, started, u, p)
    {
      forall s | 0 <= s < u && p in started[s]
        ensures ticks[u].now - ticks[s].now >= config.cooldownMs
      {
        assert (started + [chosen])[s] == started[s];
      }
    }
  }

  /** What one tick may start, given the cooldowns before it. */
  ghost predicate MayStart(config: Config, tick: Tick, lastResync: map<string, nat>, chosen: seq<string>) {
    && |chosen| <= config.maxConcurrent
    && NoDuplicates(chosen)
    && forall p :: p in chosen ==>
         && p in tick.desynced && tick.isLeader && tick.snapshotCreated
         && Eligible(lastResync, p, tick.now, config.cooldownMs)
  }

  lemma StartedAfter(
      config: Config, ticks: seq<Tick>, started: seq<seq<string>>, lastResync: map<string, nat>,
      chosen: seq<string>, t: nat)
    requires Observable(ticks) && t < |ticks| && |started| == t
    requires Spaced(ticks, started, config.cooldownMs) && Bounded(config, ticks, started)
    requires Remembers(ticks, started, lastResync)
    requires MayStart(config, ticks[t], lastResync, chosen)
    ensures Spaced(ticks, started + [chosen], config.cooldownMs)
    ensures Bounded(config, ticks, started + [chosen])
  {
    var longer := started + [chosen];
    forall s, u, p | 0 <= s < u < |longer| && p in longer[s] && p in longer[u]
      ensures ticks[u].now - ticks[s].now >= config.cooldownMs
    {
      if u == t {
        assert longer[s] == started[s] && longer[u] == chosen;
        assert p in lastResync && ticks[s].now <= lastResync[p];
      } else {
        assert longer[s] == started[s] && longer[u] == started[u];
      }
    }
  }

  lemma RemembersAfter(
      ticks: seq<Tick>, started: seq<seq<string>>, lastResync: map<string, nat>, chosen: seq<string>, t: nat)
    requires Observable(ticks) && t < |ticks| && |started| == t && Remembers(ticks, started, lastResync)
    ensures Remembers(ticks, started + [chosen], MarkAll(lastResync, chosen, ticks[t].now))
  {
    var longer, marked := started + [chosen], MarkAll(lastResync, chosen, ticks[t].now);
    forall p | p in marked
      ensures exists u :: 0 <= u < |longer| && p in longer[u] && ticks[u].now == marked[p]
    {
      if p in chosen {
        assert longer[t] == chosen;
      } else {
        var u :| 0 <= u < |started| && p in started[u] && ticks[u].now == lastResync[p];
        assert longer[u] == started[u];
      }
    }
    forall u, p | 0 <= u < |longer| && p in longer[u]
      ensures p in marked && ticks[u].now <= marked[p]
    {
      assert u < t ==> longer[u] == started[u];
    }
  }

  // ---------------------------------------------------------------- the rate bound

  /** Sends to the follower started within the first n ticks and inside the window [from, to]. */
  function StartsInWindow(
      ticks: seq<Tick>, started: seq<seq<string>>, peer: string, from: nat, to: nat, n: nat): nat
    requires n <= |started| <= |ticks|
  {
    if n == 0 then 0
    else
      StartsInWindow(ticks, started, peer, from, to, n - 1)
      + if peer in started[n - 1] && from <= ticks[n - 1].now <= to then 1 else 0
  }

  /** c starts in a window reach at least (c - 1) cooldowns into it. */
  lemma {:induction false} StartsSpreadOut(
      ticks: seq<Tick>, started: seq<seq<string>>, peer: string, from: nat, to: nat, n: nat, cooldown: nat)
      returns (last: nat)
    requires n <= |started| <= |ticks| && Spaced(ticks, started, cooldown)
    requires StartsInWindow(ticks, started, peer, from, to, n) > 0
    ensures last < n && peer in started[last] && from <= ticks[last].now <= to
    ensures ticks[last].now >= from + (StartsInWindow(ticks, started, peer, from, to, n) - 1) * cooldown
  {
    var before := StartsInWindow(ticks, started, peer, from, to, n - 1);
    if peer in started[n - 1] && from <= ticks[n - 1].now <= to {
      last := n - 1;
      if before > 0 {
        var previous := StartsSpreadOut(ticks, started, peer, from, to, n - 1, cooldown);
        assert before * cooldown == (before - 1) * cooldown + cooldown;
      }
    } else {
      last := StartsSpreadOut(ticks, started, peer, from, to, n - 1, cooldown);
    }
  }

  /** In any window of length w at most w / cooldown + 1 sends to one follower are started. */
  lemma ResyncRateBound(
      ticks: seq<Tick>, started: seq<seq<string>>, peer: string, from: nat, w: nat, cooldown: nat)
    requires |started| <= |ticks| && Spaced(ticks, started, cooldown) && cooldown > 0
    ensures StartsInWindow(ticks, started, peer, from, from + w, |started|) <= w / cooldown + 1
  {
    var count := StartsInWindow(ticks, started, peer, from, from + w, |started|);
    if count > 0 {
      var last := StartsSpreadOut(ticks, started, peer, from, from + w, |started|, cooldown);
      assert (count - 1) * cooldown <= w;
      DivisionBound(count - 1, w, cooldown);
    }
  }

  lemma DivisionBound(k: nat, w: nat, d: nat)
    requires d > 0 && k * d <= w
    ensures k <= w / d
  {
    assert w < (w / d + 1) * d;
    FactorBelow(k, w / d + 1, d);
  }

  lemma FactorBelow(a: nat, b: nat, d: nat)
    requires a * d < b * d
    ensures a < b
  {
    if b <= a {
      FactorMonotone(b, a, d);
    }
  }

  lemma FactorMonotone(a: nat, b: nat, d: nat)
    requires a <= b
    ensures a * d <= b * d
  {
    assert (b - a) * d >= 0;
  }
}
