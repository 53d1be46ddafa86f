/**
  The content of a consensus log within one term: which operation is stored at which index.
  Indices start at 1; a log may have holes.
 */
module ReplicatedLog {
  import opened Crud

  type Log = map<nat, CrudOp>

  function Max(a: nat, b: nat): nat {
    if a < b then b else a
  }

  /** 1, 2, ..., n. */
  function UpTo(n: nat): (s: seq<nat>)
    ensures |s| == n && forall k :: 0 <= k < n ==> s[k] == k + 1
  {
    seq(n, k => k + 1)
  }

  /** Smallest number of nodes that is more than half of them. */
  function Majority(total: nat): nat {
    total / 2 + 1
  }

  /** Index of the last entry, 0 for an empty log. */
  ghost function LastIndex(log: Log): (last: nat)
    ensures forall i :: i in log ==> i <= last
    ensures last == 0 || last in log
    decreases |log|
  {
    if log == map[] then 0
    else
      var k :| k in log;
      var rest := LastIndex(log - {k});
      assert forall i :: i in log ==> i == k || i in log - {k};
      if rest > k then rest else k
  }

  /** Entries already stored win over incoming ones. */
  function Merge(log: Log, incoming: Log): Log {
    incoming + log
  }

  /** Entries from the given index on. */
  function EntriesFrom(log: Log, first: nat): Log {
    map i | i in log && first <= i :: log[i]
  }

  /** Every index from 1 to c is present. */
  ghost predicate HasPrefix(log: Log, c: nat) {
    forall i :: 1 <= i <= c ==> i in log
  }

  ghost predicate HoleFree(log: Log) {
    HasPrefix(log, LastIndex(log))
  }

  /** The log stores only operations of the given history, each at its own index. */
  ghost predicate Agrees(log: Log, ops: seq<CrudOp>) {
    forall i :: i in log ==> 1 <= i <= |ops| && log[i] == ops[i - 1]
  }

  /** Operations at applied+1, applied+2, ... up to the commit index, stopping at the first hole. */
  function Unapplied(log: Log, applied: nat, commit: nat): (batch: seq<CrudOp>)
    ensures forall i :: applied < i <= applied + |batch| ==> i in log && batch[i - applied - 1] == log[i]
    ensures |batch| == 0 || applied + |batch| <= commit
    ensures applied + |batch| < commit ==> applied + |batch| + 1 !in log
    decreases commit - applied
  {
    if applied < commit && applied + 1 in log
    then [log[applied + 1]] + Unapplied(log, applied + 1, commit)
    else []
  }

  /** Nothing is left out before the first hole or the commit index. */
  lemma UnappliedReaches(log: Log, applied: nat, commit: nat, c: nat)
    requires c <= commit && forall i :: applied < i <= c ==> i in log
    ensures c <= applied + |Unapplied(log, applied, commit)|
  {
  }

  lemma MergeAgrees(log: Log, incoming: Log, ops: seq<CrudOp>)
    requires Agrees(log, ops) && Agrees(incoming, ops)
    ensures Agrees(Merge(log, incoming), ops)
    ensures Merge(log, incoming).Keys == log.Keys + incoming.Keys
  {
  }

  lemma LastIndexMonotone(a: Log, b: Log)
    requires a.Keys <= b.Keys
    ensures LastIndex(a) <= LastIndex(b)
  {
  }
}
