/** Shared vocabulary of the step systems: partial step functions, their runs, the states they
    reach, and weighted counts over a sequence of program counters. */
module Runs {

  datatype Option<+T> = None | Some(value: T)

  function Min(a: int, b: int): int { if a <= b then a else b }

  function Max(a: int, b: int): int { if a <= b then b else a }

  /** The state after the events `es`, or None when one of them is not possible where it stands. */
  function Run<S, E>(step: (S, E) -> Option<S>, s: S, es: seq<E>): Option<S> {
    if es == [] then Some(s)
    else
      var before := Run(step, s, es[..|es| - 1]);
      if before.None? then None else step(before.value, es[|es| - 1])
  }

  ghost predicate Reaches<S, E(!new)>(step: (S, E) -> Option<S>, s: S, t: S) {
    exists es: seq<E> :: Run(step, s, es) == Some(t)
  }

  lemma ReachSelf<S, E(!new)>(step: (S, E) -> Option<S>, s: S)
    ensures Reaches(step, s, s)
  {
    assert Run(step, s, []) == Some(s);
  }

  lemma ReachNext<S, E(!new)>(step: (S, E) -> Option<S>, s: S, t: S, e: E)
    requires Reaches(step, s, t) && step(t, e).Some?
    ensures Reaches(step, s, step(t, e).value)
  {
    var es :| Run(step, s, es) == Some(t);
    assert (es + [e])[..|es + [e]| - 1] == es;
    assert Run(step, s, es + [e]) == Some(step(t, e).value);
  }

  /** What holds at the start and is kept by every step holds in every reachable state. */
  lemma Invariance<S(!new), E(!new)>(step: (S, E) -> Option<S>, inv: S -> bool, s: S, t: S)
    requires inv(s)
    requires forall u: S, e: E :: inv(u) && step(u, e).Some? ==> inv(step(u, e).value)
    requires Reaches(step, s, t)
    ensures inv(t)
  {
    var es :| Run(step, s, es) == Some(t);
    InvarianceOfRun(step, inv, s, es);
  }

  lemma {:induction false} InvarianceOfRun<S(!new), E(!new)>(step: (S, E) -> Option<S>, inv: S -> bool, s: S, es: seq<E>)
    requires inv(s)
    requires forall u: S, e: E :: inv(u) && step(u, e).Some? ==> inv(step(u, e).value)
    ensures Run(step, s, es).Some? ==> inv(Run(step, s, es).value)
  {
    if es != [] {
      InvarianceOfRun(step, inv, s, es[..|es| - 1]);
    }
  }

  /** A step function that only forbids some steps reaches nothing new. */
  lemma ReachWeaker<S(!new), E(!new)>(strict: (S, E) -> Option<S>, loose: (S, E) -> Option<S>, s: S, t: S)
    requires forall u: S, e: E :: strict(u, e).Some? ==> loose(u, e) == strict(u, e)
    requires Reaches(strict, s, t)
    ensures Reaches(loose, s, t)
  {
    var es :| Run(strict, s, es) == Some(t);
    RunWeaker(strict, loose, s, es);
  }

  lemma {:induction false} RunWeaker<S(!new), E(!new)>(strict: (S, E) -> Option<S>, loose: (S, E) -> Option<S>, s: S, es: seq<E>)
    requires forall u: S, e: E :: strict(u, e).Some? ==> loose(u, e) == strict(u, e)
    ensures Run(strict, s, es).Some? ==> Run(loose, s, es) == Run(strict, s, es)
  {
    if es != [] {
      RunWeaker(strict, loose, s, es[..|es| - 1]);
    }
  }

  /** Some step of the run is of the given kind. */
  predicate Ever<S, E>(step: (S, E) -> Option<S>, s: S, es: seq<E>, kind: (S, E) -> bool)
    requires Run(step, s, es).Some?
  {
    es != [] && (Ever(step, s, es[..|es| - 1], kind) || kind(Run(step, s, es[..|es| - 1]).value, es[|es| - 1]))
  }

  /** Every state of the run is good. */
  predicate Always<S, E>(step: (S, E) -> Option<S>, s: S, es: seq<E>, good: S -> bool)
    requires Run(step, s, es).Some?
  {
    good(Run(step, s, es).value) && (es != [] ==> Always(step, s, es[..|es| - 1], good))
  }

  /** If exactly the bad steps lead from good states to others, a run stays good if and only if it takes
      no bad step. */
  lemma {:induction false} AlwaysIff<S(!new), E(!new)>(step: (S, E) -> Option<S>, s: S, es: seq<E>,
                                                      inv: S -> bool, good: S -> bool, bad: (S, E) -> bool)
    requires Run(step, s, es).Some? && inv(s) && good(s)
    requires forall u: S, e: E :: inv(u) && step(u, e).Some? ==> inv(step(u, e).value)
    requires forall u: S, e: E :: inv(u) && good(u) && step(u, e).Some? ==> (good(step(u, e).value) <==> !bad(u, e))
    ensures Always(step, s, es, good) <==> !Ever(step, s, es, bad)
  {
    if es != [] {
      AlwaysIff(step, s, es[..|es| - 1], inv, good, bad);
      InvarianceOfRun(step, inv, s, es[..|es| - 1]);
    }
  }

  // ---- Weighted counts -------------------------------------------------------------------

  /** The sum of the weights of all elements of `s`. */
  function Total<T>(s: seq<T>, w: T -> nat): nat {
    if s == [] then 0 else Total(s[..|s| - 1], w) + w(s[|s| - 1])
  }

  lemma TotalAppend<T>(s: seq<T>, w: T -> nat, x: T)
    ensures Total(s + [x], w) == Total(s, w) + w(x)
  {
    assert (s + [x])[..|s + [x]| - 1] == s;
  }

  lemma {:induction false} TotalUpdate<T>(s: seq<T>, w: T -> nat, i: nat, x: T)
    requires i < |s|
    ensures Total(s[i := x], w) == Total(s, w) - w(s[i]) + w(x)
    ensures w(s[i]) <= Total(s, w)
  {
    var n := |s| - 1;
    if i == n {
      assert s[i := x][..n] == s[..n];
    } else {
      TotalUpdate(s[..n], w, i, x);
      assert s[i := x][..n] == s[..n][i := x];
    }
  }

  lemma {:induction false} TotalPositive<T>(s: seq<T>, w: T -> nat) returns (i: nat)
    requires Total(s, w) > 0
    ensures i < |s| && w(s[i]) > 0
  {
    var n := |s| - 1;
    if w(s[n]) > 0 {
      i := n;
    } else {
      i := TotalPositive(s[..n], w);
    }
  }

  lemma {:induction false} TotalZero<T>(s: seq<T>, w: T -> nat)
    requires forall x :: x in s ==> w(x) == 0
    ensures Total(s, w) == 0
  {
    if s != [] {
      TotalZero(s[..|s| - 1], w);
    }
  }

  lemma {:induction false} TotalLe<T>(s: seq<T>, v: T -> nat, w: T -> nat)
    requires forall x :: x in s ==> v(x) <= w(x)
    ensures Total(s, v) <= Total(s, w)
  {
    if s != [] {
      TotalLe(s[..|s| - 1], v, w);
    }
  }

  /** The positions that carry weight. */
  function Heavy<T>(s: seq<T>, w: T -> nat): set<int> { set i | 0 <= i < |s| && w(s[i]) > 0 }

  /** With 0/1 weights the total is the number of positions that carry weight. */
  lemma {:induction false} TotalIsCount<T>(s: seq<T>, w: T -> nat)
    requires forall x :: x in s ==> w(x) <= 1
    ensures Total(s, w) == |Heavy(s, w)|
  {
    if s != [] {
      var n := |s| - 1;
      var front := s[..n];
      TotalIsCount(front, w);
      assert Heavy(s, w) == if w(s[n]) > 0 then Heavy(front, w) + {n} else Heavy(front, w);
    }
  }
}
