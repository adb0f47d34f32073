/** Running a machine: a step repeated. */
module Runs {

  function Iter<S>(step: S -> S, s: S, n: nat): S {
    if n == 0 then s else step(Iter(step, s, n - 1))
  }

  /** What every step keeps holds after any number of steps. */
  lemma {:induction false} Kept<S>(step: S -> S, inv: S -> bool, s: S, n: nat)
    requires inv(s) && forall x :: inv(x) ==> inv(step(x))
    ensures inv(Iter(step, s, n))
  {
    if n > 0 {
      Kept(step, inv, s, n - 1);
    }
  }

  /** What every allowed step keeps holds after any number of allowed steps. */
  lemma {:induction false} KeptWhile<S>(step: S -> S, inv: S -> bool, allowed: S -> bool, s: S, n: nat)
    requires inv(s) && forall x :: inv(x) && allowed(x) ==> inv(step(x))
    requires forall m :: 0 <= m < n ==> allowed(Iter(step, s, m))
    ensures inv(Iter(step, s, n))
  {
    if n > 0 {
      KeptWhile(step, inv, allowed, s, n - 1);
      assert allowed(Iter(step, s, n - 1));
    }
  }

  /** Two machines whose steps keep them alike stay alike, while the second does only what is allowed. */
  lemma {:induction false} InStep<S, T>(f: S -> S, g: T -> T, alike: (S, T) -> bool, allowed: T -> bool, s: S, t: T, n: nat)
    requires alike(s, t) && forall x, y :: alike(x, y) && allowed(y) ==> alike(f(x), g(y))
    requires forall m :: 0 <= m < n ==> allowed(Iter(g, t, m))
    ensures alike(Iter(f, s, n), Iter(g, t, n))
  {
    if n > 0 {
      InStep(f, g, alike, allowed, s, t, n - 1);
      assert allowed(Iter(g, t, n - 1));
    }
  }
}
