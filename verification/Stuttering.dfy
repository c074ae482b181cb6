/** Simulation with stuttering: a machine that may lose a turn before a step of the machine it simulates. */
module Stuttering {
  ghost function Iterate<M>(step: M -> M, m: M, k: nat): M {
    if k == 0 then m else step(Iterate(step, m, k - 1))
  }

  /** How many of the first k turns were steps, that is, not lost. */
  ghost function Progress<M>(step: M -> M, loses: M -> bool, m: M, k: nat): nat {
    if k == 0 then 0 else Progress(step, loses, m, k - 1) + if loses(Iterate(step, m, k - 1)) then 0 else 1
  }

  /** A lost turn keeps the relation and is followed by a step; a step is one step of the other machine. */
  ghost predicate Simulation<M(!new), F(!new)>(step: M -> M, loses: M -> bool, next: F -> F, good: F -> bool,
                                               rel: (M, F) -> bool) {
    forall m, f :: rel(m, f) && good(f) ==>
      if loses(m) then rel(step(m), f) && !loses(step(m)) else rel(step(m), next(f))
  }

  ghost predicate AlwaysGood<F>(next: F -> F, good: F -> bool, f: F) {
    forall n: nat :: good(Iterate(next, f, n))
  }

  lemma {:induction false} Simulated<M(!new), F(!new)>(
      step: M -> M, loses: M -> bool, next: F -> F, good: F -> bool, rel: (M, F) -> bool, m: M, f: F, k: nat)
    requires Simulation(step, loses, next, good, rel) && AlwaysGood(next, good, f) && rel(m, f)
    ensures rel(Iterate(step, m, k), Iterate(next, f, Progress(step, loses, m, k)))
    ensures Progress(step, loses, m, k) <= k
    ensures k <= 2 * Progress(step, loses, m, k) + if loses(Iterate(step, m, k)) then 0 else 1
  {
    if k > 0 {
      Simulated(step, loses, next, good, rel, m, f, k - 1);
      assert good(Iterate(next, f, Progress(step, loses, m, k - 1)));
    }
  }

  /** Every step of the simulated machine is reached. */
  lemma {:induction false} Reached<M(!new), F(!new)>(
      step: M -> M, loses: M -> bool, next: F -> F, good: F -> bool, rel: (M, F) -> bool, m: M, f: F, n: nat)
    returns (k: nat)
    requires Simulation(step, loses, next, good, rel) && AlwaysGood(next, good, f) && rel(m, f)
    ensures n <= k <= 2 * n && Progress(step, loses, m, k) == n
    ensures rel(Iterate(step, m, k), Iterate(next, f, n))
  {
    if n == 0 {
      k := 0;
    } else {
      var j := Reached(step, loses, next, good, rel, m, f, n - 1);
      assert good(Iterate(next, f, n - 1));
      k := if loses(Iterate(step, m, j)) then j + 2 else j + 1;
      Simulated(step, loses, next, good, rel, m, f, k);
    }
  }
}
