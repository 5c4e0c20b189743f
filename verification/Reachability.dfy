/** Paths of a directed graph given by a successor function. */
module Reachability {

  ghost predicate IsPath<T(!new)>(succ: T -> set<T>, p: seq<T>) {
    p != [] && forall i | 0 <= i < |p| - 1 :: p[i + 1] in succ(p[i])
  }

  ghost predicate PathBetween<T(!new)>(succ: T -> set<T>, p: seq<T>, from: T, to: T) {
    IsPath(succ, p) && p[0] == from && p[|p| - 1] == to
  }

  ghost predicate Reaches<T(!new)>(succ: T -> set<T>, from: T, to: T) {
    exists p :: PathBetween(succ, p, from, to)
  }

  ghost predicate Closed<T(!new)>(succ: T -> set<T>, s: set<T>) {
    forall x | x in s :: succ(x) <= s
  }

  lemma ReachesSelf<T(!new)>(succ: T -> set<T>, from: T)
    ensures Reaches(succ, from, from)
  {
    assert PathBetween(succ, [from], from, from);
  }

  lemma ReachesStep<T(!new)>(succ: T -> set<T>, from: T, mid: T, to: T)
    requires Reaches(succ, from, mid) && to in succ(mid)
    ensures Reaches(succ, from, to)
  {
    var p :| PathBetween(succ, p, from, mid);
    assert PathBetween(succ, p + [to], from, to);
  }

  /** A closed set holds every node of a path that starts in it. */
  lemma {:induction false} PathStaysInside<T(!new)>(succ: T -> set<T>, s: set<T>, p: seq<T>)
    requires Closed(succ, s) && IsPath(succ, p) && p[0] in s
    ensures forall i | 0 <= i < |p| :: p[i] in s
  {
    if |p| > 1 {
      var front := p[..|p| - 1];
      PathStaysInside(succ, s, front);
      assert forall i | 0 <= i < |front| :: p[i] == front[i];
      assert p[|p| - 2] == front[|p| - 2] && p[|p| - 2] in s;
      assert p[(|p| - 2) + 1] in succ(p[|p| - 2]);
    }
  }

  /** The reachable nodes are inside every closed set that holds the start. */
  lemma ReachableInClosed<T(!new)>(succ: T -> set<T>, s: set<T>, from: T)
    requires Closed(succ, s) && from in s
    ensures forall x | Reaches(succ, from, x) :: x in s
  {
    forall x | Reaches(succ, from, x) ensures x in s {
      var p :| PathBetween(succ, p, from, x);
      PathStaysInside(succ, s, p);
    }
  }

  /** Every node of a path from `from` is reachable from it. */
  lemma {:induction false} PathNodesReachable<T(!new)>(succ: T -> set<T>, p: seq<T>, i: nat)
    requires IsPath(succ, p) && i < |p|
    ensures Reaches(succ, p[0], p[i])
  {
    assert PathBetween(succ, p[..i + 1], p[0], p[i]);
  }
}
