/** Runs of a transition system. A schedule is a sequence of actions, and a
    disabled action leaves the state as it was, so quantifying over all
    schedules quantifies over all interleavings. */
module Runs {

  function Run<S, A>(step: (S, A) -> S, s: S, acts: seq<A>): S
    decreases |acts|
  {
    if acts == [] then s else Run(step, step(s, acts[0]), acts[1..])
  }

  lemma {:induction false} RunKeeps<S(!new), A(!new)>(step: (S, A) -> S, inv: S -> bool, s: S, acts: seq<A>)
    requires inv(s)
    requires forall t, a :: inv(t) ==> inv(step(t, a))
    ensures inv(Run(step, s, acts))
    decreases |acts|
  {
    if acts != [] {
      RunKeeps(step, inv, step(s, acts[0]), acts[1..]);
    }
  }

  lemma {:induction false} RunConcat<S, A>(step: (S, A) -> S, s: S, first: seq<A>, second: seq<A>)
    ensures Run(step, s, first + second) == Run(step, Run(step, s, first), second)
    decreases |first|
  {
    if first == [] {
      assert first + second == second;
    } else {
      assert (first + second)[1..] == first[1..] + second;
      RunConcat(step, step(s, first[0]), first[1..], second);
    }
  }

  lemma RunTwo<S, A>(step: (S, A) -> S, s: S, a: A, b: A)
    ensures Run(step, s, [a, b]) == step(step(s, a), b)
  {
    assert [a, b][1..] == [b] && [b][1..] == [];
    assert Run(step, step(s, a), [b]) == Run(step, step(step(s, a), b), []);
  }

  lemma RunThree<S, A>(step: (S, A) -> S, s: S, a: A, b: A, c: A)
    ensures Run(step, s, [a, b, c]) == step(step(step(s, a), b), c)
  {
    assert [a, b, c][1..] == [b, c];
    RunTwo(step, step(s, a), b, c);
  }

  lemma RunFour<S, A>(step: (S, A) -> S, s: S, a: A, b: A, c: A, d: A)
    ensures Run(step, s, [a, b, c, d]) == step(step(step(step(s, a), b), c), d)
  {
    RunConcat(step, s, [a, b], [c, d]);
    assert [a, b, c, d] == [a, b] + [c, d];
    RunTwo(step, s, a, b);
    RunTwo(step, step(step(s, a), b), c, d);
  }

  /** The counted steps of a schedule that change something. */
  function Effective<S(==), A>(step: (S, A) -> S, counted: A -> bool, s: S, acts: seq<A>): nat
    decreases |acts|
  {
    if acts == [] then 0 else
    (if counted(acts[0]) && step(s, acts[0]) != s then 1 else 0) + Effective(step, counted, step(s, acts[0]), acts[1..])
  }

  /** There are no more of them than a rank that each takes down by one allows. */
  lemma {:induction false} EffectiveIsBounded<S(!new), A(!new)>(step: (S, A) -> S, counted: A -> bool, inv: S -> bool,
                                                                   rank: S -> nat, s: S, acts: seq<A>)
    requires inv(s)
    requires forall t, a :: inv(t) ==>
      inv(step(t, a)) && rank(step(t, a)) + (if counted(a) && step(t, a) != t then 1 else 0) <= rank(t)
    ensures Effective(step, counted, s, acts) + rank(Run(step, s, acts)) <= rank(s)
    decreases |acts|
  {
    if acts != [] { EffectiveIsBounded(step, counted, inv, rank, step(s, acts[0]), acts[1..]); }
  }
}
