/**
  One append request handled from start to end by a server object, and the exact condition under
  which a success answer means that the entries up to the request's commit index are applied.
 */
module FollowerServer {
  import opened Wrappers
  import opened Crud
  import opened ReplicatedLog
  import opened ConsensusLog

  datatype AppendRequest = AppendRequest(term: nat, entries: seq<LogEntry>, leaderCommit: nat)

  datatype AppendResponse = AppendResponse(term: nat, success: bool, lastLogIndex: nat, appliedIndex: nat)

  /** Applies the operations in order; an Err says that one of them failed. */
  function ReplayFrom(models: seq<Model>, stores: Stores, ops: seq<CrudOp>): (r: Result<Stores>)
    requires |stores| == |models|
    ensures r.Ok? ==> |r.value| == |models|
  {
    if ops == [] then Ok(stores)
    else
      var before := ReplayFrom(models, stores, ops[..|ops| - 1]);
      if before.Err? then before else ApplyCrud(models, before.value, ops[|ops| - 1])
  }

  lemma ReplayFromNext(models: seq<Model>, stores: Stores, ops: seq<CrudOp>, k: nat)
    requires |stores| == |models| && k < |ops| && ReplayFrom(models, stores, ops[..k]).Ok?
    ensures ReplayFrom(models, stores, ops[..k + 1])
            == ApplyCrud(models, ReplayFrom(models, stores, ops[..k]).value, ops[k])
  {
    assert ops[..k + 1][..k] == ops[..k];
  }

  /** The first `done` operations of the batch apply, and the next one, if any, does not. */
  ghost predicate StopsAfter(models: seq<Model>, stores: Stores, batch: seq<CrudOp>, done: nat, after: Stores)
    requires |stores| == |models|
  {
    && done <= |batch|
    && ReplayFrom(models, stores, batch[..done]) == Ok(after)
    && (done < |batch| ==> ApplyCrud(models, after, batch[done]).Err?)
  }

  class Server {
    const models: seq<Model>
    const log: ConsensusLog
    var stores: Stores

    ghost predicate Valid()
      reads this, log
    {
      log.Valid() && |stores| == |models|
    }

    constructor (models: seq<Model>)
      ensures Valid() && fresh(log)
      ensures this.models == models && stores == EmptyStores(models)
      ensures log.appliedIndex == log.commitIndex == 0 && log.entries == []
    {
      this.models := models;
      this.stores := EmptyStores(models);
      this.log := new ConsensusLog();
    }

    /**
      Stale terms are refused. Otherwise the entries are merged, the term and the commit index only
      go up, and the unapplied entries are applied in order up to the first failure.
     */
    method HandleAppendEntries(request: AppendRequest) returns (response: AppendResponse)
      requires Valid()
      modifies this, log
      ensures Valid()
      ensures response.lastLogIndex == if log.entries == [] then 0 else log.entries[|log.entries| - 1].id.index
      ensures response.appliedIndex == log.appliedIndex && response.term == log.currentTerm
      ensures log.currentTerm == Max(old(log.currentTerm), request.term)
      ensures request.term < old(log.currentTerm) ==>
                && !response.success
                && stores == old(stores) && log.entries == old(log.entries)
                && log.commitIndex == old(log.commitIndex) && log.appliedIndex == old(log.appliedIndex)
      ensures request.term >= old(log.currentTerm) ==>
                var batch := Unapplied(ByIndex(log.entries), old(log.appliedIndex), log.commitIndex);
                && Contents(log.entries) == Contents(request.entries) + Contents(old(log.entries))
                && log.commitIndex == Max(old(log.commitIndex), request.leaderCommit)
                && log.appliedIndex >= old(log.appliedIndex)
                && StopsAfter(models, old(stores), batch, log.appliedIndex - old(log.appliedIndex), stores)
                && (response.success <==> log.appliedIndex == old(log.appliedIndex) + |batch|)
    {
      var ourTerm := log.currentTerm;
      if request.term > ourTerm {
        log.currentTerm := request.term;
      } else if request.term < ourTerm {
        var stale := log.LastLogIndex();
        return AppendResponse(ourTerm, false, stale, log.appliedIndex);
      }
      log.AppendEntries(request.entries, request.leaderCommit);
      var success := ApplyUnapplied();
      var last := log.LastLogIndex();
      response := AppendResponse(log.currentTerm, success, last, log.appliedIndex);
    }

    /** Applies the unapplied entries in order, marking each, and stops at the first failure. */
    method ApplyUnapplied() returns (success: bool)
      requires Valid()
      modifies this`stores, log`appliedIndex
      ensures Valid() && log.appliedIndex >= old(log.appliedIndex)
      ensures var batch := Unapplied(ByIndex(log.entries), old(log.appliedIndex), log.commitIndex);
              && StopsAfter(models, old(stores), batch, log.appliedIndex - old(log.appliedIndex), stores)
              && (success <==> log.appliedIndex == old(log.appliedIndex) + |batch|)
    {
      var unapplied := log.GetUnappliedEntries();
      ghost var batch := Unapplied(ByIndex(log.entries), log.appliedIndex, log.commitIndex);
      ghost var start := log.appliedIndex;
      success := true;
      var k := 0;
      assert batch[..0] == [];
      while k < |unapplied|
        invariant 0 <= k <= |unapplied| && |stores| == |models|
        invariant log.appliedIndex == start + k
        invariant ReplayFrom(models, old(stores), batch[..k]) == Ok(stores)
      {
        var entry := unapplied[k];
        ReplayFromNext(models, old(stores), batch, k);
        var result := ApplyCrud(models, stores, entry.op);
        if result.Err? {
          return false;
        }
        stores := result.value;
        log.MarkApplied(entry.id.index);
        k := k + 1;
      }
    }
  }

  // ---------------------------------------------------------------- when success covers the commit index

  /** A follower of the given history, seen between requests. */
  ghost predicate FollowerOf(models: seq<Model>, ops: seq<CrudOp>, log: Log, applied: nat, stores: Stores) {
    && Agrees(log, ops)
    && applied <= |ops|
    && HasPrefix(log, applied)
    && Replay(models, ops[..applied]) == Ok(stores)
  }

  /** A whole round that applies everything it lists ends at or beyond c. */
  ghost predicate RoundReaches(log: Log, applied: nat, commit: nat, entries: Log, c: nat) {
    c <= applied + |Unapplied(Merge(log, entries), applied, Max(commit, c))|
  }

  /**
    A request with commit index c makes every follower of the history reach c in a successful round
    exactly when it carries every entry from 1 to c itself.
   */
  lemma SuccessCoversCommitIff(models: seq<Model>, ops: seq<CrudOp>, entries: Log, c: nat)
    requires Agrees(entries, ops)
    ensures HasPrefix(entries, c) <==>
            forall log, applied, commit, stores :: FollowerOf(models, ops, log, applied, stores) ==>
              RoundReaches(log, applied, commit, entries, c)
  {
    if HasPrefix(entries, c) {
      forall log, applied: nat, commit: nat, stores | FollowerOf(models, ops, log, applied, stores)
        ensures RoundReaches(log, applied, commit, entries, c)
      {
        UnappliedReaches(Merge(log, entries), applied, Max(commit, c), c);
      }
    } else {
      var none: Log := map[];
      assert ops[..0] == [];
      assert FollowerOf(models, ops, none, 0, EmptyStores(models));
      assert Merge(none, entries) == entries;
      assert !RoundReaches(none, 0, 0, entries, c);
    }
  }

  lemma UnappliedIsHistory(ops: seq<CrudOp>, log: Log, applied: nat, commit: nat)
    requires Agrees(log, ops) && applied <= |ops|
    ensures applied + |Unapplied(log, applied, commit)| <= |ops|
    ensures Unapplied(log, applied, commit) == ops[applied..applied + |Unapplied(log, applied, commit)|]
  {
    var batch := Unapplied(log, applied, commit);
    if batch != [] {
      assert applied + |batch| in log;
    }
    forall k | 0 <= k < |batch|
      ensures batch[k] == ops[applied..applied + |batch|][k]
    {
      assert applied + 1 + k in log && log[applied + 1 + k] == ops[applied + k];
    }
  }

  /** Replaying a stretch on top of what came before it is replaying the whole. */
  lemma {:induction false} ReplayConcat(models: seq<Model>, prefix: seq<CrudOp>, stretch: seq<CrudOp>)
    requires Replay(models, prefix).Ok?
    ensures ReplayFrom(models, Replay(models, prefix).value, stretch) == Replay(models, prefix + stretch)
    decreases |stretch|
  {
    if stretch == [] {
      assert prefix + stretch == prefix;
    } else {
      var shorter := stretch[..|stretch| - 1];
      ReplayConcat(models, prefix, shorter);
      WithoutLast(prefix, stretch);
    }
  }

  lemma WithoutLast(prefix: seq<CrudOp>, stretch: seq<CrudOp>)
    requires stretch != []
    ensures var whole := prefix + stretch;
            whole[..|whole| - 1] == prefix + stretch[..|stretch| - 1] && whole[|whole| - 1] == stretch[|stretch| - 1]
  {
  }

  /** Where a whole stretch applies, each of its operations applies after those before it. */
  lemma EachApplies(models: seq<Model>, stores: Stores, stretch: seq<CrudOp>, k: nat)
    requires |stores| == |models| && ReplayFrom(models, stores, stretch).Ok? && k < |stretch|
    ensures ReplayFrom(models, stores, stretch[..k]).Ok?
    ensures ApplyCrud(models, ReplayFrom(models, stores, stretch[..k]).value, stretch[k]).Ok?
  {
    ReplayFromPrefixOk(models, stores, stretch, k);
    ReplayFromPrefixOk(models, stores, stretch, k + 1);
    ReplayFromNext(models, stores, stretch, k);
  }

  lemma {:induction false} ReplayFromPrefixOk(models: seq<Model>, stores: Stores, stretch: seq<CrudOp>, k: nat)
    requires |stores| == |models| && ReplayFrom(models, stores, stretch).Ok? && k <= |stretch|
    ensures ReplayFrom(models, stores, stretch[..k]).Ok?
    decreases |stretch|
  {
    if k == |stretch| {
      assert stretch[..k] == stretch;
    } else {
      assert stretch[..|stretch| - 1][..k] == stretch[..k];
      ReplayFromPrefixOk(models, stores, stretch[..|stretch| - 1], k);
    }
  }

  /** In a history whose operations apply, any stretch applies on top of what came before it. */
  lemma StretchApplies(models: seq<Model>, before: seq<CrudOp>, stretch: seq<CrudOp>, rest: seq<CrudOp>)
    requires Replay(models, before + stretch + rest).Ok?
    ensures Replay(models, before).Ok? && ReplayFrom(models, Replay(models, before).value, stretch).Ok?
  {
    FrontReplays(models, before + stretch, rest);
    FrontReplays(models, before, stretch);
    ReplayConcat(models, before, stretch);
  }

  lemma FrontReplays(models: seq<Model>, front: seq<CrudOp>, rest: seq<CrudOp>)
    requires Replay(models, front + rest).Ok?
    ensures Replay(models, front).Ok?
  {
    ReplayPrefixOk(models, front + rest, |front|);
    assert (front + rest)[..|front|] == front;
  }

  lemma CutInThree(ops: seq<CrudOp>, start: nat, end: nat)
    requires start <= end <= |ops|
    ensures ops == ops[..start] + ops[start..end] + ops[end..]
  {
  }

  /** In a history whose operations apply, a round of a follower never fails. */
  lemma RoundNeverFails(
      models: seq<Model>, ops: seq<CrudOp>, log: Log, applied: nat, commit: nat, stores: Stores,
      done: nat, after: Stores)
    requires Replay(models, ops).Ok? && FollowerOf(models, ops, log, applied, stores)
    requires |stores| == |models|
    requires StopsAfter(models, stores, Unapplied(log, applied, commit), done, after)
    ensures done == |Unapplied(log, applied, commit)|
  {
    var batch := Unapplied(log, applied, commit);
    UnappliedIsHistory(ops, log, applied, commit);
    if done < |batch| {
      CutInThree(ops, applied, applied + |batch|);
      StretchApplies(models, ops[..applied], batch, ops[applied + |batch|..]);
      EachApplies(models, stores, batch, done);
    }
  }
}
