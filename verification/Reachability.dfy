/** States that a transition relation leads to, for any relation between states and labels. */
module Reachability {
  /** The k-th label leads from the k-th state to the one after it. */
  ghost predicate Linked<S(!new), A(!new)>(next: (S, A, S) -> bool, states: seq<S>, labels: seq<A>, k: nat) {
    k < |labels| && k + 1 < |states| && next(states[k], labels[k], states[k + 1])
  }

  ghost predicate Path<S(!new), A(!new)>(next: (S, A, S) -> bool, states: seq<S>, labels: seq<A>) {
    |states| == |labels| + 1 && forall k: nat :: k < |labels| ==> Linked(next, states, labels, k)
  }

  ghost predicate Leads<S(!new), A(!new)>(next: (S, A, S) -> bool, s: S, states: seq<S>, labels: seq<A>, t: S) {
    Path(next, states, labels) && states[0] == s && states[|labels|] == t
  }

  ghost predicate CanReach<S(!new), A(!new)>(next: (S, A, S) -> bool, s: S, t: S) {
    exists states: seq<S>, labels: seq<A> :: Leads(next, s, states, labels, t)
  }

  lemma Stay<S(!new), A(!new)>(next: (S, A, S) -> bool, s: S)
    ensures CanReach(next, s, s)
  {
    assert Leads(next, s, [s], [], s);
  }

  lemma One<S(!new), A(!new)>(next: (S, A, S) -> bool, s: S, a: A, t: S)
    requires next(s, a, t)
    ensures CanReach(next, s, t)
  {
    assert Linked(next, [s, t], [a], 0);
    assert Leads(next, s, [s, t], [a], t);
  }

  lemma LeadsConcat<S(!new), A(!new)>(
      next: (S, A, S) -> bool, s: S, p: seq<S>, a: seq<A>, t: S, q: seq<S>, b: seq<A>, u: S)
    requires Leads(next, s, p, a, t) && Leads(next, t, q, b, u)
    ensures Leads(next, s, p + q[1..], a + b, u)
  {
    var states, labels := p + q[1..], a + b;
    forall k: nat | k < |labels|
      ensures Linked(next, states, labels, k)
    {
      if k < |a| {
        assert Linked(next, p, a, k);
      } else {
        assert Linked(next, q, b, k - |a|);
      }
    }
  }

  lemma Then<S(!new), A(!new)>(next: (S, A, S) -> bool, s: S, t: S, u: S)
    requires CanReach(next, s, t) && CanReach(next, t, u)
    ensures CanReach(next, s, u)
  {
    var p: seq<S>, a: seq<A> :| Leads(next, s, p, a, t);
    var q: seq<S>, b: seq<A> :| Leads(next, t, q, b, u);
    LeadsConcat(next, s, p, a, t, q, b, u);
  }

  ghost predicate Keeps<S(!new), A(!new)>(next: (S, A, S) -> bool, kept: S -> bool) {
    forall s: S, a: A, t: S :: kept(s) && next(s, a, t) ==> kept(t)
  }

  /** What every transition keeps is kept along a path. */
  lemma {:induction false} PathKeeps<S(!new), A(!new)>(
      next: (S, A, S) -> bool, kept: S -> bool, states: seq<S>, labels: seq<A>, k: nat)
    requires Keeps(next, kept) && Path(next, states, labels) && kept(states[0]) && k <= |labels|
    ensures kept(states[k])
  {
    if k > 0 {
      PathKeeps(next, kept, states, labels, k - 1);
      assert Linked(next, states, labels, k - 1);
    }
  }

  lemma ReachKeeps<S(!new), A(!new)>(next: (S, A, S) -> bool, kept: S -> bool, s: S, t: S)
    requires Keeps(next, kept) && kept(s) && CanReach(next, s, t)
    ensures kept(t)
  {
    var states: seq<S>, labels: seq<A> :| Leads(next, s, states, labels, t);
    PathKeeps(next, kept, states, labels, |labels|);
  }
}
