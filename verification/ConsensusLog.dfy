/**
  The consensus log as the server keeps it: a vector of entries ordered by log id, and four counters
  that only grow.
 */
module ConsensusLog {
  import opened Wrappers
  import opened Crud
  import opened ReplicatedLog

  datatype LogId = LogId(term: nat, index: nat)

  datatype LogEntry = LogEntry(id: LogId, op: CrudOp)

  predicate Less(a: LogId, b: LogId) {
    a.term < b.term || (a.term == b.term && a.index < b.index)
  }

  ghost predicate Sorted(entries: seq<LogEntry>) {
    forall i, j :: 0 <= i < j < |entries| ==> !Less(entries[j].id, entries[i].id)
  }

  predicate HasId(entries: seq<LogEntry>, id: LogId) {
    exists e :: e in entries && e.id == id
  }

  /** The operation of each log id; the first entry with an id counts. */
  function Contents(entries: seq<LogEntry>): map<LogId, CrudOp> {
    if entries == [] then map[]
    else Contents(entries[1..])[entries[0].id := entries[0].op]
  }

  /** The operation of each index; the first entry with an index counts. */
  function ByIndex(entries: seq<LogEntry>): Log {
    if entries == [] then map[]
    else ByIndex(entries[1..])[entries[0].id.index := entries[0].op]
  }

  ghost predicate OneTerm(entries: seq<LogEntry>, term: nat) {
    forall e :: e in entries ==> e.id.term == term
  }

  /** The entries at applied + 1, applied + 2, ... with the given operations. */
  ghost predicate IsBatch(batch: seq<LogEntry>, applied: nat, ops: seq<CrudOp>) {
    && |batch| == |ops|
    && forall k :: 0 <= k < |batch| ==> batch[k].id.index == applied + 1 + k && batch[k].op == ops[k]
  }

  /** The entries are those the log stores right after `applied`. */
  ghost predicate Follows(batch: seq<LogEntry>, log: Log, applied: nat) {
    forall k :: 0 <= k < |batch| ==>
      && batch[k].id.index == applied + 1 + k
      && batch[k].id.index in log
      && batch[k].op == log[batch[k].id.index]
  }

  /** Following entries that end at the commit index or before a hole are all that is unapplied. */
  lemma FollowingIsUnapplied(batch: seq<LogEntry>, log: Log, applied: nat, commit: nat)
    requires Follows(batch, log, applied) && applied + |batch| <= commit
    requires applied + |batch| == commit || applied + |batch| + 1 !in log
    ensures IsBatch(batch, applied, Unapplied(log, applied, commit))
  {
    var ops := Unapplied(log, applied, commit);
    forall i | applied < i <= applied + |batch|
      ensures i in log
    {
      assert batch[i - applied - 1].id.index == i;
    }
    UnappliedReaches(log, applied, commit, applied + |batch|);
    assert |batch| < |ops| ==> applied + |batch| + 1 in log;
    forall k | 0 <= k < |batch|
      ensures batch[k].op == ops[k]
    {
      assert log[applied + 1 + k] == ops[k];
    }
  }

  // ---------------------------------------------------------------- the maps behind the vector

  lemma {:induction false} ContentsKeys(entries: seq<LogEntry>, id: LogId)
    ensures id in Contents(entries) <==> HasId(entries, id)
  {
    if entries != [] {
      ContentsKeys(entries[1..], id);
      assert entries == [entries[0]] + entries[1..];
    }
  }

  /** Within one term the map by log id and the map by index say the same. */
  lemma {:induction false} OneTermByIndex(entries: seq<LogEntry>, term: nat, i: nat)
    requires OneTerm(entries, term)
    ensures i in ByIndex(entries) <==> LogId(term, i) in Contents(entries)
    ensures i in ByIndex(entries) ==> ByIndex(entries)[i] == Contents(entries)[LogId(term, i)]
  {
    if entries != [] {
      OneTermByIndex(entries[1..], term, i);
      assert entries[0] in entries;
      assert entries[0].id == LogId(term, i) <==> entries[0].id.index == i;
    }
  }

  /** The entry has been put before the first entry with a greater id. */
  ghost predicate InsertedAt(before: seq<LogEntry>, entry: LogEntry, after: seq<LogEntry>, pos: nat) {
    && pos <= |before|
    && after == before[..pos] + [entry] + before[pos..]
    && (forall k :: 0 <= k < pos ==> !Less(entry.id, before[k].id))
    && (forall k :: pos <= k < |before| ==> Less(entry.id, before[k].id))
  }

  ghost predicate IsInsertion(before: seq<LogEntry>, entry: LogEntry, after: seq<LogEntry>) {
    exists pos: nat :: InsertedAt(before, entry, after, pos)
  }

  lemma {:induction false} InsertedWithNewId(front: seq<LogEntry>, entry: LogEntry, back: seq<LogEntry>)
    requires !HasId(front, entry.id)
    ensures Contents(front + [entry] + back) == Contents(front + back)[entry.id := entry.op]
    decreases |front|
  {
    if front == [] {
      assert front + [entry] + back == [entry] + back && front + back == back;
    } else {
      assert front[0] in front;
      assert (front + [entry] + back)[1..] == front[1..] + [entry] + back;
      assert (front + back)[1..] == front[1..] + back;
      InsertedWithNewId(front[1..], entry, back);
    }
  }

  /** An entry behind one with its own id is never looked up. */
  lemma {:induction false} InsertedBehindItsId(front: seq<LogEntry>, entry: LogEntry, back: seq<LogEntry>)
    requires HasId(front, entry.id)
    ensures Contents(front + [entry] + back) == Contents(front + back)
    decreases |front|
  {
    assert (front + [entry] + back)[1..] == front[1..] + [entry] + back;
    assert (front + back)[1..] == front[1..] + back;
    if HasId(front[1..], entry.id) {
      InsertedBehindItsId(front[1..], entry, back);
    } else {
      InsertedWithNewId(front[1..], entry, back);
      assert front == [front[0]] + front[1..];
    }
  }

  /** A sorted insertion stores the operation under its id, unless the id is stored already. */
  lemma InsertionContents(before: seq<LogEntry>, entry: LogEntry, after: seq<LogEntry>)
    requires IsInsertion(before, entry, after)
    ensures Contents(after) ==
            if HasId(before, entry.id) then Contents(before) else Contents(before)[entry.id := entry.op]
  {
    var pos: nat :| InsertedAt(before, entry, after, pos);
    var front, back := before[..pos], before[pos..];
    assert before == front + back;
    if HasId(front, entry.id) {
      InsertedBehindItsId(front, entry, back);
    } else {
      InsertedWithNewId(front, entry, back);
    }
  }

  lemma InsertionSorted(before: seq<LogEntry>, entry: LogEntry, after: seq<LogEntry>)
    requires Sorted(before) && IsInsertion(before, entry, after)
    ensures Sorted(after)
  {
  }

  lemma {:induction false} ByIndexFirst(entries: seq<LogEntry>, k: nat)
    requires k < |entries|
    requires forall j :: 0 <= j < k ==> entries[j].id.index != entries[k].id.index
    ensures entries[k].id.index in ByIndex(entries) && ByIndex(entries)[entries[k].id.index] == entries[k].op
  {
    if k > 0 {
      ByIndexFirst(entries[1..], k - 1);
    }
  }

  lemma {:induction false} ByIndexKeys(entries: seq<LogEntry>, i: nat)
    ensures i in ByIndex(entries) <==> exists e :: e in entries && e.id.index == i
  {
    if entries != [] {
      ByIndexKeys(entries[1..], i);
      assert entries == [entries[0]] + entries[1..];
    }
  }

  /** Within one term, merging by log id is merging by index. */
  lemma MergeWithinTerm(before: seq<LogEntry>, incoming: seq<LogEntry>, after: seq<LogEntry>, term: nat)
    requires OneTerm(before, term) && OneTerm(incoming, term)
    requires Contents(after) == Contents(incoming) + Contents(before)
    ensures OneTerm(after, term)
    ensures ByIndex(after) == Merge(ByIndex(before), ByIndex(incoming))
  {
    forall e | e in after
      ensures e.id.term == term
    {
      ContentsKeys(after, e.id);
      ContentsKeys(before, e.id);
      ContentsKeys(incoming, e.id);
    }
    forall i
      ensures i in ByIndex(after) <==> i in Merge(ByIndex(before), ByIndex(incoming))
      ensures i in ByIndex(after) ==> ByIndex(after)[i] == Merge(ByIndex(before), ByIndex(incoming))[i]
    {
      OneTermByIndex(after, term, i);
      OneTermByIndex(before, term, i);
      OneTermByIndex(incoming, term, i);
    }
  }

  method FindIndex(entries: seq<LogEntry>, i: nat) returns (entry: Option<LogEntry>)
    ensures entry.Some? <==> i in ByIndex(entries)
    ensures entry.Some? ==> entry.value in entries && entry.value.id.index == i
    ensures entry.Some? ==> entry.value.op == ByIndex(entries)[i]
  {
    var j := 0;
    while j < |entries|
      invariant 0 <= j <= |entries|
      invariant forall k :: 0 <= k < j ==> entries[k].id.index != i
    {
      if entries[j].id.index == i {
        ByIndexFirst(entries, j);
        return Some(entries[j]);
      }
      j := j + 1;
    }
    ByIndexKeys(entries, i);
    return None;
  }

  method WalkUnapplied(entries: seq<LogEntry>, applied: nat, commit: nat) returns (batch: seq<LogEntry>)
    requires applied < commit
    ensures IsBatch(batch, applied, Unapplied(ByIndex(entries), applied, commit))
  {
    batch := [];
    var expected := applied + 1;
    ghost var log := ByIndex(entries);
    while expected <= commit
      invariant expected == applied + 1 + |batch| <= commit + 1
      invariant Follows(batch, log, applied)
    {
      var entry := FindIndex(entries, expected);
      if entry.None? {
        break;
      }
      batch := batch + [entry.value];
      expected := expected + 1;
    }
    FollowingIsUnapplied(batch, log, applied, commit);
  }

  // ---------------------------------------------------------------- the log object

  class ConsensusLog {
    var currentTerm: nat
    var nextIndex: nat
    var commitIndex: nat
    var appliedIndex: nat
    var entries: seq<LogEntry>

    ghost predicate Valid()
      reads this
    {
      Sorted(entries)
    }

    constructor ()
      ensures Valid() && currentTerm == 1 && nextIndex == 1
      ensures commitIndex == appliedIndex == 0 && entries == []
    {
      currentTerm, nextIndex, commitIndex, appliedIndex, entries := 1, 1, 0, 0, [];
    }

    /** First half of an append: take the next index. */
    method ReserveIndex() returns (id: LogId)
      modifies this`nextIndex
      ensures id == LogId(currentTerm, old(nextIndex)) && nextIndex == old(nextIndex) + 1
    {
      id := LogId(currentTerm, nextIndex);
      nextIndex := nextIndex + 1;
    }

    /** Second half: put the entry before the first one with a greater id, whether or not its id is new. */
    method InsertEntry(entry: LogEntry)
      requires Valid()
      modifies this`entries
      ensures Valid() && IsInsertion(old(entries), entry, entries)
      ensures Contents(entries) ==
              if HasId(old(entries), entry.id) then Contents(old(entries))
              else Contents(old(entries))[entry.id := entry.op]
    {
      var pos := 0;
      while pos < |entries| && !Less(entry.id, entries[pos].id)
        invariant 0 <= pos <= |entries|
        invariant forall j :: 0 <= j < pos ==> !Less(entry.id, entries[j].id)
      {
        pos := pos + 1;
      }
      ghost var before := entries;
      entries := entries[..pos] + [entry] + entries[pos..];
      assert InsertedAt(before, entry, entries, pos);
      InsertionContents(before, entry, entries);
      InsertionSorted(before, entry, entries);
    }

    method Append(op: CrudOp) returns (entry: LogEntry)
      requires Valid()
      modifies this`nextIndex, this`entries
      ensures Valid() && entry == LogEntry(LogId(currentTerm, old(nextIndex)), op)
      ensures nextIndex == old(nextIndex) + 1
      ensures Contents(entries) ==
              if HasId(old(entries), entry.id) then Contents(old(entries))
              else Contents(old(entries))[entry.id := op]
    {
      var id := ReserveIndex();
      entry := LogEntry(id, op);
      InsertEntry(entry);
    }

    /** Stores an entry unless one with its id is there already. */
    method StoreIfNew(entry: LogEntry)
      requires Valid()
      modifies this`entries
      ensures Valid()
      ensures Contents(entries) ==
              if entry.id in Contents(old(entries)) then Contents(old(entries))
              else Contents(old(entries))[entry.id := entry.op]
    {
      var present := HasEntry(entry.id);
      ContentsKeys(entries, entry.id);
      if !present {
        InsertEntry(entry);
      }
    }

    /** Merges a leader's entries; entries already stored stay, and the commit index never falls. */
    method AppendEntries(incoming: seq<LogEntry>, leaderCommit: nat)
      requires Valid()
      modifies this`entries, this`commitIndex
      ensures Valid()
      ensures Contents(entries) == Contents(incoming) + Contents(old(entries))
      ensures commitIndex == Max(old(commitIndex), leaderCommit)
    {
      for i := 0 to |incoming|
        invariant Valid() && commitIndex == old(commitIndex)
        invariant Contents(entries) == Contents(incoming[..i]) + Contents(old(entries))
      {
        ContentsSnoc(incoming[..i], incoming[i]);
        assert incoming[..i + 1] == incoming[..i] + [incoming[i]];
        StoreIfNew(incoming[i]);
      }
      assert incoming[..|incoming|] == incoming;
      commitIndex := Max(commitIndex, leaderCommit);
    }

    method HasEntry(id: LogId) returns (found: bool)
      ensures found <==> HasId(entries, id)
    {
      found := false;
      for j := 0 to |entries|
        invariant found <==> exists k :: 0 <= k < j && entries[k].id == id
      {
        if entries[j].id == id {
          found := true;
        }
      }
    }

    method Commit(index: nat)
      modifies this`commitIndex
      ensures commitIndex == Max(old(commitIndex), index)
    {
      commitIndex := Max(commitIndex, index);
    }

    method MarkApplied(index: nat)
      modifies this`appliedIndex
      ensures appliedIndex == Max(old(appliedIndex), index)
    {
      appliedIndex := Max(appliedIndex, index);
    }

    /** Walks from applied + 1 towards the commit index and stops at the first missing index. */
    method GetUnappliedEntries() returns (batch: seq<LogEntry>)
      ensures IsBatch(batch, appliedIndex, Unapplied(ByIndex(entries), appliedIndex, commitIndex))
    {
      if commitIndex <= appliedIndex {
        return [];
      }
      batch := WalkUnapplied(entries, appliedIndex, commitIndex);
    }

    method GetEntriesFrom(first: nat) returns (result: seq<LogEntry>)
      requires Valid()
      ensures Sorted(result)
      ensures forall e :: e in result <==> e in entries && e.id.index >= first
    {
      result := [];
      for j := 0 to |entries|
        invariant Sorted(result)
        invariant forall e :: e in result <==> e in entries[..j] && e.id.index >= first
        invariant j < |entries| ==> forall e :: e in result ==> !Less(entries[j].id, e.id)
      {
        if entries[j].id.index >= first {
          result := result + [entries[j]];
        }
        assert entries[..j + 1] == entries[..j] + [entries[j]];
      }
    }

    method LastLogIndex() returns (last: nat)
      ensures last == if entries == [] then 0 else entries[|entries| - 1].id.index
    {
      last := if |entries| == 0 then 0 else entries[|entries| - 1].id.index;
    }
  }

  lemma {:induction false} ContentsSnoc(entries: seq<LogEntry>, last: LogEntry)
    ensures Contents(entries + [last]) ==
            if last.id in Contents(entries) then Contents(entries) else Contents(entries)[last.id := last.op]
  {
    if entries == [] {
      assert entries + [last] == [last];
    } else {
      assert (entries + [last])[1..] == entries[1..] + [last];
      ContentsSnoc(entries[1..], last);
    }
  }

  /** Entries of earlier terms come first, and within a term the indices ascend. */
  lemma SortedIff(entries: seq<LogEntry>)
    ensures Sorted(entries) <==>
            forall i, j :: 0 <= i < j < |entries| ==>
              || entries[i].id.term < entries[j].id.term
              || (entries[i].id.term == entries[j].id.term && entries[i].id.index <= entries[j].id.index)
  {
  }

  /** Within one term the last entry has the greatest index, so the two readings of it agree. */
  lemma LastEntryIsLastIndex(entries: seq<LogEntry>, term: nat)
    requires Sorted(entries) && OneTerm(entries, term)
    ensures LastIndex(ByIndex(entries)) == if entries == [] then 0 else entries[|entries| - 1].id.index
  {
    if entries != [] {
      var last := entries[|entries| - 1];
      forall e | e in entries
        ensures e.id.index <= last.id.index
      {
        var k :| 0 <= k < |entries| && entries[k] == e;
        assert entries[k].id.term == term && last.id.term == term;
      }
      ByIndexKeys(entries, last.id.index);
      ByIndexKeys(entries, LastIndex(ByIndex(entries)));
    }
  }
}
