/** Runs of any transition relation. */
module Traces {
  /** `moves` lead from s to t, one transition each. */
  ghost predicate Chain<S(!new), M>(go: (S, M, S) -> bool, s: S, moves: seq<M>, t: S)
    decreases |moves|
  {
    if moves == [] then t == s
    else exists u :: go(s, moves[0], u) && Chain(go, u, moves[1..], t)
  }

  lemma ChainOne<S(!new), M>(go: (S, M, S) -> bool, s: S, m: M, t: S)
    requires go(s, m, t)
    ensures Chain(go, s, [m], t)
  {
    assert Chain(go, t, [m][1..], t);
  }

  lemma {:induction false} ChainJoin<S(!new), M>(
    go: (S, M, S) -> bool, s: S, a: seq<M>, u: S, b: seq<M>, t: S)
    requires Chain(go, s, a, u) && Chain(go, u, b, t)
    ensures Chain(go, s, a + b, t)
    decreases |a|
  {
    if a == [] {
      assert a + b == b;
    } else {
      var next :| go(s, a[0], next) && Chain(go, next, a[1..], u);
      ChainJoin(go, next, a[1..], u, b, t);
      assert (a + b)[0] == a[0] && (a + b)[1..] == a[1..] + b;
    }
  }
}
