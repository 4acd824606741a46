/** Runs of a state machine given by its step relation, and the invariant principle for them. */
module Chains {
  ghost predicate Chain<S(!new), E>(next: (S, E, S) -> bool, s: S, es: seq<E>, s': S) {
    if es == [] then s' == s
    else exists mid :: next(s, es[0], mid) && Chain(next, mid, es[1..], s')
  }

  // What every step keeps holds in every state that is reached.
  lemma {:induction false} Always<S(!new), E(!new)>(next: (S, E, S) -> bool, inv: S -> bool, s: S, es: seq<E>, s': S)
    requires inv(s) && Chain(next, s, es, s')
    requires forall a, e, a' :: inv(a) && next(a, e, a') ==> inv(a')
    ensures inv(s')
  {
    if es != [] {
      var mid :| next(s, es[0], mid) && Chain(next, mid, es[1..], s');
      Always(next, inv, mid, es[1..], s');
    }
  }

  lemma Prepend<S(!new), E(!new)>(next: (S, E, S) -> bool, s: S, e: E, mid: S, es: seq<E>, s': S)
    requires next(s, e, mid) && Chain(next, mid, es, s')
    ensures Chain(next, s, [e] + es, s')
  {
    assert ([e] + es)[1..] == es;
  }

  lemma {:induction false} Append<S(!new), E(!new)>(next: (S, E, S) -> bool, s: S, es: seq<E>, mid: S, fs: seq<E>,
                                                    s': S)
    requires Chain(next, s, es, mid) && Chain(next, mid, fs, s')
    ensures Chain(next, s, es + fs, s')
  {
    if es == [] {
      assert es + fs == fs;
    } else {
      var m :| next(s, es[0], m) && Chain(next, m, es[1..], mid);
      Append(next, m, es[1..], mid, fs, s');
      assert (es + fs)[1..] == es[1..] + fs;
    }
  }
}
