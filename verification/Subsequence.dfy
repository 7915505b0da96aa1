/** Order-preserving selection without repeats, and how it composes. */
module Subsequence {

  /** taken is source read at the strictly increasing positions picks. */
  ghost predicate Picks<T>(picks: seq<int>, source: seq<T>, taken: seq<T>) {
    && |picks| == |taken|
    && (forall i | 0 <= i < |picks| :: 0 <= picks[i] < |source| && taken[i] == source[picks[i]])
    && forall i, j | 0 <= i < j < |picks| :: picks[i] < picks[j]
  }

  ghost predicate IsSubsequence<T>(taken: seq<T>, source: seq<T>) {
    exists picks: seq<int> :: Picks(picks, source, taken)
  }

  lemma Compose<T>(a: seq<T>, b: seq<T>, c: seq<T>)
    requires IsSubsequence(a, b) && IsSubsequence(b, c)
    ensures IsSubsequence(a, c)
  {
    var p :| Picks(p, b, a);
    var q :| Picks(q, c, b);
    var picks := seq(|p|, i requires 0 <= i < |p| => q[p[i]]);
    assert Picks(picks, c, a);
  }
}
