/** Sequences of steps of any step system. */
module Traces {
  import opened Prelude

  ghost predicate Runs<S, M>(step: (S, M) -> Option<S>, s: S, ms: seq<M>, s': S)
    decreases |ms|
  {
    if ms == [] then s == s'
    else step(s, ms[0]).Some? && Runs(step, step(s, ms[0]).value, ms[1..], s')
  }

  lemma {:induction false} Join<S, M>(step: (S, M) -> Option<S>, s: S, ms: seq<M>, s': S, ns: seq<M>, s'': S)
    requires Runs(step, s, ms, s') && Runs(step, s', ns, s'')
    ensures Runs(step, s, ms + ns, s'')
    decreases |ms|
  {
    if ms == [] {
      assert ms + ns == ns;
    } else {
      Join(step, step(s, ms[0]).value, ms[1..], s', ns, s'');
      assert (ms + ns)[1..] == ms[1..] + ns;
    }
  }

  lemma {:induction false} One<S, M>(step: (S, M) -> Option<S>, s: S, m: M)
    requires step(s, m).Some?
    ensures Runs(step, s, [m], step(s, m).value)
  {
    assert [m][1..] == [];
  }

  lemma {:induction false} Cons<S, M>(step: (S, M) -> Option<S>, s: S, m: M, s': S, ms: seq<M>, s'': S)
    requires step(s, m) == Some(s') && Runs(step, s', ms, s'')
    ensures Runs(step, s, [m] + ms, s'')
  {
    assert ([m] + ms)[1..] == ms;
  }

  /** What every step keeps holds at the end. */
  lemma {:induction false} Keeps<S(!new), M(!new)>(step: (S, M) -> Option<S>, holds: S -> bool, s: S, ms: seq<M>, s': S)
    requires holds(s) && Runs(step, s, ms, s')
    requires forall r, m :: holds(r) && m in ms && step(r, m).Some? ==> holds(step(r, m).value)
    ensures holds(s')
    decreases |ms|
  {
    if ms != [] {
      Keeps(step, holds, step(s, ms[0]).value, ms[1..], s');
    }
  }

  /** What the steps of a run cost together. */
  ghost function Cost<S, M>(step: (S, M) -> Option<S>, price: (S, M) -> nat, s: S, ms: seq<M>): nat
    decreases |ms|
  {
    if ms == [] || step(s, ms[0]).None? then 0
    else price(s, ms[0]) + Cost(step, price, step(s, ms[0]).value, ms[1..])
  }

  lemma {:induction false} CostCons<S, M>(step: (S, M) -> Option<S>, price: (S, M) -> nat, s: S, m: M, s': S,
      ms: seq<M>)
    requires step(s, m) == Some(s')
    ensures Cost(step, price, s, [m] + ms) == price(s, m) + Cost(step, price, s', ms)
  {
    assert ([m] + ms)[1..] == ms;
  }

  lemma {:induction false} CostJoin<S, M>(step: (S, M) -> Option<S>, price: (S, M) -> nat, s: S, ms: seq<M>, s': S,
      ns: seq<M>)
    requires Runs(step, s, ms, s')
    ensures Cost(step, price, s, ms + ns) == Cost(step, price, s, ms) + Cost(step, price, s', ns)
    decreases |ms|
  {
    if ms == [] {
      assert ms + ns == ns;
    } else {
      CostJoin(step, price, step(s, ms[0]).value, ms[1..], s', ns);
      assert (ms + ns)[1..] == ms[1..] + ns;
    }
  }
}
