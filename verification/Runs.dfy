/** Runs of a state machine: a step function applied along a sequence of steps. */
module Runs {

  function Run<S, A>(next: (S, A) -> S, s: S, steps: seq<A>): S
    decreases |steps|
  {
    if steps == [] then s else Run(next, next(s, steps[0]), steps[1..])
  }

  lemma RunOne<S, A>(next: (S, A) -> S, s: S, a: A, rest: seq<A>)
    ensures Run(next, s, [a] + rest) == Run(next, next(s, a), rest)
  {
    assert ([a] + rest)[1..] == rest;
  }

  lemma RunTwo<S, A>(next: (S, A) -> S, s: S, a: A, b: A)
    ensures Run(next, s, [a, b]) == next(next(s, a), b)
  {
    assert [a, b][1..] == [b] && [b][1..] == [];
    assert Run(next, next(s, a), [b]) == Run(next, next(next(s, a), b), []);
  }

  lemma RunThree<S, A>(next: (S, A) -> S, s: S, a: A, b: A, c: A)
    ensures Run(next, s, [a, b, c]) == next(next(next(s, a), b), c)
  {
    assert [a, b, c] == [a] + [b, c];
    RunOne(next, s, a, [b, c]);
    RunTwo(next, next(s, a), b, c);
  }

  lemma {:induction false} RunAppend<S, A>(next: (S, A) -> S, s: S, xs: seq<A>, ys: seq<A>)
    ensures Run(next, s, xs + ys) == Run(next, Run(next, s, xs), ys)
    decreases |xs|
  {
    if xs == [] {
      assert xs + ys == ys;
    } else {
      assert (xs + ys)[1..] == xs[1..] + ys;
      RunAppend(next, next(s, xs[0]), xs[1..], ys);
    }
  }
}
