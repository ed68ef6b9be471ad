/** A run: a state carried through a list of steps. */
module Runs {

  function FoldWith<S, E>(step: (S, E) -> S, s: S, events: seq<E>): S {
    if events == [] then s else step(FoldWith(step, s, events[..|events| - 1]), events[|events| - 1])
  }

  lemma FoldWithOne<S, E>(step: (S, E) -> S, s: S, e: E)
    ensures FoldWith(step, s, [e]) == step(s, e)
  {
    assert [e][..0] == [] && FoldWith(step, s, [e][..0]) == s;
  }

  lemma FoldWithSnoc<S, E>(step: (S, E) -> S, s: S, events: seq<E>, e: E)
    ensures FoldWith(step, s, events + [e]) == step(FoldWith(step, s, events), e)
  {
    assert (events + [e])[..|events|] == events;
  }

  lemma {:induction false} FoldWithConcat<S, E>(step: (S, E) -> S, s: S, a: seq<E>, b: seq<E>)
    ensures FoldWith(step, s, a + b) == FoldWith(step, FoldWith(step, s, a), b)
  {
    if b == [] {
      assert a + b == a;
    } else {
      var n := |b| - 1;
      assert (a + b)[..|a| + n] == a + b[..n];
      assert (a + b)[|a| + n] == b[n];
      FoldWithConcat(step, s, a, b[..n]);
    }
  }

  function Repeat<E>(e: E, n: nat): seq<E> { seq(n, _ => e) }

  /** What one step carries from each stage to the next, `n` equal steps carry `n` stages on. */
  lemma {:induction false} RepeatKeeps<S(!new), E>(
      step: (S, E) -> S, s: S, e: E, holds: (S, nat) -> bool, i: nat, n: nat)
    requires holds(s, i)
    requires forall v, k: nat :: i <= k < i + n && holds(v, k) ==> holds(step(v, e), k + 1)
    ensures holds(FoldWith(step, s, Repeat(e, n)), i + n)
  {
    if n > 0 {
      RepeatKeeps(step, s, e, holds, i, n - 1);
      FoldWithSnoc(step, s, Repeat(e, n - 1), e);
      assert Repeat(e, n) == Repeat(e, n - 1) + [e];
    }
  }
}
