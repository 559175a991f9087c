/** Finite runs of a step function, for any protocol. */
module Runs {

  function After<S, A>(apply: (S, A) -> S, s: S, steps: seq<A>): S
    decreases |steps|
  {
    if steps == [] then s else After(apply, apply(s, steps[0]), steps[1..])
  }

  predicate Valid<S, A>(enabled: (S, A) -> bool, apply: (S, A) -> S, s: S, steps: seq<A>)
    decreases |steps|
  {
    steps == [] || (enabled(s, steps[0]) && Valid(enabled, apply, apply(s, steps[0]), steps[1..]))
  }

  /** Some run leads from `s` to `t`. */
  ghost predicate Reaches<S, A(!new)>(enabled: (S, A) -> bool, apply: (S, A) -> S, s: S, t: S) {
    exists steps :: Valid(enabled, apply, s, steps) && After(apply, s, steps) == t
  }

  /** What every enabled step keeps, every run keeps. */
  lemma {:induction false} Keeps<S(!new), A(!new)>(
    enabled: (S, A) -> bool, apply: (S, A) -> S, inv: S -> bool, s: S, steps: seq<A>)
    requires forall t, a :: inv(t) && enabled(t, a) ==> inv(apply(t, a))
    requires inv(s) && Valid(enabled, apply, s, steps)
    ensures inv(After(apply, s, steps))
    decreases |steps|
  {
    if steps != [] {
      Keeps(enabled, apply, inv, apply(s, steps[0]), steps[1..]);
    }
  }

  lemma {:induction false} Append<S, A>(enabled: (S, A) -> bool, apply: (S, A) -> S, s: S, steps: seq<A>, a: A)
    requires Valid(enabled, apply, s, steps) && enabled(After(apply, s, steps), a)
    ensures Valid(enabled, apply, s, steps + [a])
    ensures After(apply, s, steps + [a]) == apply(After(apply, s, steps), a)
    decreases |steps|
  {
    if steps == [] {
      assert steps + [a] == [a] && [a][1..] == [];
    } else {
      Append(enabled, apply, apply(s, steps[0]), steps[1..], a);
      assert (steps + [a])[1..] == steps[1..] + [a];
    }
  }

  /** What comes before step `k` is a run itself, and step `k` is enabled after it. */
  lemma {:induction false} Prefix<S, A>(enabled: (S, A) -> bool, apply: (S, A) -> S, s: S, steps: seq<A>, k: nat)
    requires Valid(enabled, apply, s, steps) && k < |steps|
    ensures Valid(enabled, apply, s, steps[..k]) && enabled(After(apply, s, steps[..k]), steps[k])
    decreases k
  {
    if k > 0 {
      Prefix(enabled, apply, apply(s, steps[0]), steps[1..], k - 1);
      assert steps[..k][1..] == steps[1..][..k - 1];
    }
  }

  /** A run of stricter rules goes on with a run of these. */
  lemma {:induction false} Join<S, A(!new)>(
    enabled: (S, A) -> bool, strict: (S, A) -> bool, apply: (S, A) -> S, s: S, t: S, steps: seq<A>)
    requires Reaches(enabled, apply, s, t) && Valid(strict, apply, t, steps)
    requires forall u, a :: strict(u, a) ==> enabled(u, a)
    ensures Reaches(enabled, apply, s, After(apply, t, steps))
    decreases |steps|
  {
    if steps != [] {
      Move(enabled, apply, s, t, steps[0]);
      Join(enabled, strict, apply, s, apply(t, steps[0]), steps[1..]);
    }
  }

  lemma Start<S, A(!new)>(enabled: (S, A) -> bool, apply: (S, A) -> S, s: S)
    ensures Reaches(enabled, apply, s, s)
  {
    var none: seq<A> := [];
    assert Valid(enabled, apply, s, none) && After(apply, s, none) == s;
  }

  lemma Move<S, A(!new)>(enabled: (S, A) -> bool, apply: (S, A) -> S, s: S, t: S, a: A)
    requires Reaches(enabled, apply, s, t) && enabled(t, a)
    ensures Reaches(enabled, apply, s, apply(t, a))
  {
    var steps :| Valid(enabled, apply, s, steps) && After(apply, s, steps) == t;
    Append(enabled, apply, s, steps, a);
  }
}
