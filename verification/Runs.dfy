/** Runs of a state machine given by its step function, and what induction over them gives. */
module Runs {

  /** The state after a run. */
  function Run<S, L>(next: (S, L) -> S, s: S, steps: seq<L>): S {
    if steps == [] then s
    else next(Run(next, s, steps[..|steps| - 1]), steps[|steps| - 1])
  }

  lemma RunStep<S, L>(next: (S, L) -> S, s: S, steps: seq<L>, i: nat)
    requires i < |steps|
    ensures Run(next, s, steps[..i + 1]) == next(Run(next, s, steps[..i]), steps[i])
  {
    assert steps[..i + 1][..i] == steps[..i];
  }

  lemma {:induction false} RunAppend<S, L>(next: (S, L) -> S, s: S, a: seq<L>, b: seq<L>)
    ensures Run(next, s, a + b) == Run(next, Run(next, s, a), b)
    decreases |b|
  {
    if b == [] {
      assert a + b == a;
    } else {
      assert (a + b)[..|a + b| - 1] == a + b[..|b| - 1];
      RunAppend(next, s, a, b[..|b| - 1]);
    }
  }

  /** A property that every allowed step keeps, kept from step `i` to step `n`. */
  lemma {:induction false} Keeps<S(!new), L(!new)>(
      next: (S, L) -> S, inv: S -> bool, allowed: (S, L) -> bool, s: S, steps: seq<L>, i: nat, n: nat)
    requires i <= n <= |steps|
    requires inv(Run(next, s, steps[..i]))
    requires forall m :: i <= m < n ==> allowed(Run(next, s, steps[..m]), steps[m])
    requires forall t, l :: inv(t) && allowed(t, l) ==> inv(next(t, l))
    ensures inv(Run(next, s, steps[..n]))
    decreases n
  {
    if i == n {
    } else {
      Keeps(next, inv, allowed, s, steps, i, n - 1);
      RunStep(next, s, steps, n - 1);
    }
  }

  /** An invariant: true at the start and kept by every step. */
  lemma {:induction false} Always<S(!new), L(!new)>(next: (S, L) -> S, inv: S -> bool, s: S, steps: seq<L>)
    requires inv(s)
    requires forall t, l :: inv(t) ==> inv(next(t, l))
    ensures inv(Run(next, s, steps))
  {
    if steps == [] {
    } else {
      Always(next, inv, s, steps[..|steps| - 1]);
    }
  }

  /** What is one thing until something breaks it, and another from then on. */
  lemma {:induction false} UntilBroken(inv: (nat, bool) -> bool, breaks: nat -> bool, i: nat, n: nat)
    requires i <= n && inv(i, true)
    requires forall m: nat, still :: i <= m < n && inv(m, still) ==> inv(m + 1, still && !breaks(m))
    ensures inv(n, forall m: nat :: i <= m < n ==> !breaks(m))
    decreases n
  {
    if i == n {
    } else {
      UntilBroken(inv, breaks, i, n - 1);
      var still := forall m: nat :: i <= m < n - 1 ==> !breaks(m);
      assert (still && !breaks(n - 1)) == forall m: nat :: i <= m < n ==> !breaks(m);
    }
  }

  /** A property of the state that a step of one kind breaks, in a run. */
  lemma KeepsUntil<S(!new), L(!new)>(
      next: (S, L) -> S, inv: (S, bool) -> bool, allowed: (S, L) -> bool, breaks: (S, L) -> bool,
      s: S, steps: seq<L>, i: nat, n: nat)
    requires i <= n <= |steps|
    requires inv(Run(next, s, steps[..i]), true)
    requires forall m :: i <= m < n ==> allowed(Run(next, s, steps[..m]), steps[m])
    requires forall t, l, still :: inv(t, still) && allowed(t, l) ==> inv(next(t, l), still && !breaks(t, l))
    ensures inv(Run(next, s, steps[..n]), forall m :: i <= m < n ==> !breaks(Run(next, s, steps[..m]), steps[m]))
  {
    var held := (m: nat, still: bool) => m <= n && inv(Run(next, s, steps[..m]), still);
    var broken := (m: nat) => m < n && breaks(Run(next, s, steps[..m]), steps[m]);
    forall m: nat, still | i <= m < n && held(m, still)
      ensures held(m + 1, still && !broken(m))
    {
      RunStep(next, s, steps, m);
    }
    UntilBroken(held, broken, i, n);
    forall m: nat | i <= m < n
      ensures broken(m) <==> breaks(Run(next, s, steps[..m]), steps[m])
    {
    }
  }

  /** What is so at `n` and was not at 0 has a last cause. */
  lemma {:induction false} LastCause(holds: nat -> bool, brings: nat -> bool, leaves: nat -> bool, n: nat) returns (r: nat)
    requires !holds(0) && holds(n)
    requires forall m: nat :: m < n && holds(m + 1) ==> leaves(m) && (brings(m) || holds(m))
    ensures r < n && brings(r) && forall m :: r < m < n ==> leaves(m)
  {
    assert holds(n - 1 + 1);
    if brings(n - 1) {
      r := n - 1;
    } else {
      r := LastCause(holds, brings, leaves, n - 1);
    }
  }

  /** A property that was not true once, and is now: the step that last brought it about. */
  lemma Source<S(!new), L(!new)>(
      next: (S, L) -> S, holds: S -> bool, brings: (S, L) -> bool, leaves: (S, L) -> bool, allowed: (S, L) -> bool,
      s: S, steps: seq<L>, n: nat) returns (r: nat)
    requires n <= |steps| && !holds(s) && holds(Run(next, s, steps[..n]))
    requires forall m :: 0 <= m < n ==> allowed(Run(next, s, steps[..m]), steps[m])
    requires forall t, l :: allowed(t, l) && holds(next(t, l)) ==> leaves(t, l) && (brings(t, l) || holds(t))
    ensures r < n && brings(Run(next, s, steps[..r]), steps[r])
    ensures forall m :: r < m < n ==> leaves(Run(next, s, steps[..m]), steps[m])
  {
    var held := (m: nat) => m <= n && holds(Run(next, s, steps[..m]));
    var brought := (m: nat) => m < n && brings(Run(next, s, steps[..m]), steps[m]);
    var left := (m: nat) => m < n && leaves(Run(next, s, steps[..m]), steps[m]);
    assert steps[..0] == [];
    forall m: nat | m < n && held(m + 1)
      ensures left(m) && (brought(m) || held(m))
    {
      RunStep(next, s, steps, m);
    }
    r := LastCause(held, brought, left, n);
    forall m | r < m < n
      ensures leaves(Run(next, s, steps[..m]), steps[m])
    {
      assert left(m);
    }
  }

  /** A relation between the state and the steps so far, kept by every step. */
  lemma {:induction false} AlwaysOfHistory<S(!new), L(!new)>(
      next: (S, L) -> S, rel: (S, seq<L>) -> bool, s: S, steps: seq<L>)
    requires rel(s, [])
    requires forall t, before, l :: rel(t, before) ==> rel(next(t, l), before + [l])
    ensures rel(Run(next, s, steps), steps)
  {
    if steps == [] {
    } else {
      AlwaysOfHistory(next, rel, s, steps[..|steps| - 1]);
      assert steps == steps[..|steps| - 1] + [steps[|steps| - 1]];
    }
  }

  /** How many steps of a run are of a kind. */
  function Count<S, L>(next: (S, L) -> S, kind: (S, L) -> bool, s: S, steps: seq<L>): nat {
    if steps == [] then 0
    else
      var init := steps[..|steps| - 1];
      Count(next, kind, s, init) + if kind(Run(next, s, init), steps[|steps| - 1]) then 1 else 0
  }

  function Iterate<X>(f: X -> X, n: nat, x: X): X {
    if n == 0 then x else f(Iterate(f, n - 1, x))
  }

  lemma CountStep<S, L>(next: (S, L) -> S, kind: (S, L) -> bool, s: S, steps: seq<L>, i: nat)
    requires i < |steps|
    ensures Count(next, kind, s, steps[..i + 1])
         == Count(next, kind, s, steps[..i]) + if kind(Run(next, s, steps[..i]), steps[i]) then 1 else 0
  {
    assert steps[..i + 1][..i] == steps[..i];
  }

  /** A part of the state that steps of one kind carry on by `f`, and no other step changes. */
  lemma {:induction false} Iterates<S(!new), L(!new), X>(
      next: (S, L) -> S, kind: (S, L) -> bool, part: S -> X, f: X -> X, allowed: (S, L) -> bool,
      s: S, steps: seq<L>, n: nat)
    requires n <= |steps|
    requires forall m :: 0 <= m < n ==> allowed(Run(next, s, steps[..m]), steps[m])
    requires forall t, l :: allowed(t, l) ==> part(next(t, l)) == if kind(t, l) then f(part(t)) else part(t)
    ensures part(Run(next, s, steps[..n])) == Iterate(f, Count(next, kind, s, steps[..n]), part(s))
    decreases n
  {
    if n == 0 {
      assert steps[..0] == [];
    } else {
      Iterates(next, kind, part, f, allowed, s, steps, n - 1);
      RunStep(next, s, steps, n - 1);
      CountStep(next, kind, s, steps, n - 1);
    }
  }
}
