/** Finite paths of a labelled transition relation. */
module Paths {

  ghost predicate Path<S(!new), L(!new)>(next: (S, L, S) -> bool, ss: seq<S>, steps: seq<L>) {
    && |ss| == |steps| + 1
    && forall i :: 0 <= i < |steps| ==> next(ss[i], steps[i], ss[i + 1])
  }

  ghost predicate Joins<S(!new), L(!new)>(next: (S, L, S) -> bool, s: S, ss: seq<S>, steps: seq<L>, r: S) {
    Path(next, ss, steps) && ss[0] == s && ss[|steps|] == r
  }

  ghost predicate Reach<S(!new), L(!new)>(next: (S, L, S) -> bool, s: S, r: S) {
    exists ss, steps :: Joins(next, s, ss, steps, r)
  }

  lemma Here<S(!new), L(!new)>(next: (S, L, S) -> bool, s: S)
    ensures Reach(next, s, s)
  {
    assert Joins(next, s, [s], [], s);
  }

  lemma Then<S(!new), L(!new)>(next: (S, L, S) -> bool, s: S, m: S, st: L, r: S)
    requires Reach(next, s, m) && next(m, st, r)
    ensures Reach(next, s, r)
  {
    var ss, steps :| Joins(next, s, ss, steps, m);
    var ss', steps' := ss + [r], steps + [st];
    forall i | 0 <= i < |steps'| ensures next(ss'[i], steps'[i], ss'[i + 1]) {
      assert i < |steps| ==> next(ss[i], steps[i], ss[i + 1]);
    }
    assert Joins(next, s, ss', steps', r);
  }
}
