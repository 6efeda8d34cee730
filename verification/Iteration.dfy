/** Runs of a machine: a step function applied at consecutive times. */
module Iteration {

  ghost function Iterate<S>(step: (S, nat) -> S, s: S, t: nat, k: nat): S
    decreases k
  {
    if k == 0 then s else Iterate(step, step(s, t), t + 1, k - 1)
  }

  lemma {:induction false} IterateAppend<S>(step: (S, nat) -> S, s: S, t: nat, j: nat, k: nat)
    ensures Iterate(step, s, t, j + k) == Iterate(step, Iterate(step, s, t, j), t + j, k)
    decreases j
  {
    if j > 0 {
      IterateAppend(step, step(s, t), t + 1, j - 1, k);
    }
  }

  lemma IterateOneMore<S>(step: (S, nat) -> S, s: S, t: nat, k: nat)
    ensures Iterate(step, s, t, k + 1) == step(Iterate(step, s, t, k), t + k)
  {
    IterateAppend(step, s, t, k, 1);
  }

  /** What every step keeps, every run keeps. */
  lemma {:induction false} IterateKeeps<S(!new)>(step: (S, nat) -> S, inv: S -> bool, s: S, t: nat, k: nat)
    requires inv(s)
    requires forall x, u: nat :: inv(x) ==> inv(step(x, u))
    ensures inv(Iterate(step, s, t, k))
    decreases k
  {
    if k > 0 {
      IterateKeeps(step, inv, step(s, t), t + 1, k - 1);
    }
  }
}
