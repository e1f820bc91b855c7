/** `Throttler.Try`: attempts through the breaker until the target answers or the deadline passes.
    What each attempt meets (the breaker, the readiness probe, the resolve callback and how long all
    that takes) is an arbitrary script; time is counted from the creation of the context, whose
    deadline is when it becomes done. */
module Retry {
  import opened Runs

  datatype Probe = ProbeFails | NotReady | Ready

  /** `wait`: until Maybe runs the thunk. `work`: the probe and resolve. `over`: sleeping longer than
      asked. An attempt may be admitted after the deadline: acquire looks at the context only when
      it has to wait. */
  datatype Attempt =
    | QueueFull
    | AcquireCancelled
    | Ran(wait: nat, probe: Probe, resolves: bool, work: nat, over: nat)

  type Script = nat -> Attempt

  datatype Outcome = Done | BreakerError(full: bool) | ProbeError | ResolveError | ContextError

  /** When attempt k begins, if every attempt before it ended in a pause. */
  function Begins(script: Script, pause: nat, k: nat): nat {
    if k == 0 then 0
    else
      var before := Begins(script, pause, k - 1);
      match script(k - 1)
      case Ran(wait, _, _, work, over) => before + wait + work + pause + over
      case _ => before
  }

  /** When attempt k looks at the context. */
  function Looks(script: Script, pause: nat, k: nat): nat {
    Begins(script, pause, k) + if script(k).Ran? then script(k).wait + script(k).work else 0
  }

  function Late(script: Script, deadline: nat, pause: nat, k: nat): bool {
    Looks(script, pause, k) >= deadline
  }

  /** The attempt after which Try returns. */
  predicate Stops(script: Script, deadline: nat, pause: nat, k: nat) {
    !script(k).Ran? || script(k).probe.Ready? || Late(script, deadline, pause, k)
  }

  /** k attempts that all end in a pause take at least k pauses. */
  lemma {:induction false} BeginsLate(script: Script, deadline: nat, pause: nat, k: nat)
    requires forall i: nat :: i < k ==> !Stops(script, deadline, pause, i)
    ensures Begins(script, pause, k) >= k * pause
    ensures k > 0 ==> (k - 1) * pause < deadline
  {
    if k > 0 {
      BeginsLate(script, deadline, pause, k - 1);
      assert !Stops(script, deadline, pause, k - 1);
      assert k * pause == (k - 1) * pause + pause;
    }
  }

  function CeilDiv(a: nat, b: nat): nat
    requires b > 0
  {
    (a + b - 1) / b
  }

  lemma AtMostCeil(k: nat, deadline: nat, pause: nat)
    requires pause > 0 && (k > 0 ==> (k - 1) * pause < deadline)
    ensures k <= CeilDiv(deadline, pause)
  {
    if k > 0 {
      var c := CeilDiv(deadline, pause);
      assert deadline <= c * pause;
      if k - 1 >= c {
        MulLe(c, k - 1, pause);
      }
    }
  }

  lemma MulLe(a: nat, b: nat, m: nat)
    requires a <= b
    ensures a * m <= b * m
  {
    assert b * m == a * m + (b - a) * m;
  }

  /** Try stops at the first attempt that stops it, and there is one within the bound. */
  method Try(script: Script, deadline: nat, pause: nat)
    returns (outcome: Outcome, last: nat, runs: nat, resolved: seq<nat>, informed: nat)
    requires pause > 0
    // it ends with the first attempt that is refused, cancelled, ready or late
    ensures Stops(script, deadline, pause, last) && forall k: nat :: k < last ==> !Stops(script, deadline, pause, k)
    ensures runs == if script(last).Ran? then last + 1 else last
    ensures runs <= CeilDiv(deadline, pause) + 1
    // resolve is called at most once, on the last attempt, with the number of attempts made
    ensures resolved == if script(last).Ran? && script(last).probe.Ready? then [runs] else []
    // the operator is informed once for every failed probe
    ensures informed == |set k | 0 <= k <= last && script(k).Ran? && script(k).probe.ProbeFails?|
    // nil exactly when resolve ran, returned nil, and the deadline had not passed when it was done
    ensures outcome.Done? <==> resolved != [] && script(last).resolves && !Late(script, deadline, pause, last)
    ensures outcome.BreakerError? <==> !script(last).Ran?
    ensures outcome.BreakerError? ==> (outcome.full <==> script(last).QueueFull?)
    ensures outcome.ContextError? <==> script(last).Ran? && Late(script, deadline, pause, last)
    // and a failed probe is never what it returns
    ensures !outcome.ProbeError?
  {
    var reenqueue := true;
    var tryCount: nat := 1;
    var tryErr: Option<Outcome> := None;
    var now: nat := 0;
    last, runs, resolved, informed := 0, 0, [], 0;
    while reenqueue
      invariant runs == if reenqueue then last else last + 1
      invariant forall k: nat :: k < last ==> !Stops(script, deadline, pause, k)
      invariant reenqueue ==> tryCount == last + 1 && now == Begins(script, pause, last) && resolved == []
      invariant !reenqueue ==> script(last).Ran? && Stops(script, deadline, pause, last)
      invariant !reenqueue ==> resolved == if script(last).probe.Ready? then [last + 1] else []
      invariant informed == |Informs(script, runs)|
      invariant !reenqueue && tryErr.Some? ==> tryErr.value.ResolveError? || tryErr.value.ContextError?
      invariant !reenqueue ==> (tryErr == Some(ContextError) <==> Late(script, deadline, pause, last))
      invariant !reenqueue && tryErr.None? ==> resolved != [] && script(last).resolves
      invariant !reenqueue && tryErr == Some(ResolveError) ==> !script(last).resolves && script(last).probe.Ready?
      decreases reenqueue, CeilDiv(deadline, pause) - last
    {
      BeginsLate(script, deadline, pause, last);
      AtMostCeil(last, deadline, pause);
      tryErr := None;
      match script(last)
      case QueueFull => 
        InformsAll(script, last);
        return BreakerError(true), last, runs, resolved, informed;
      case AcquireCancelled =>
        InformsAll(script, last);
        return BreakerError(false), last, runs, resolved, informed;
      case Ran(wait, probe, resolves, work, over) =>
        now := now + wait + work;
        runs := runs + 1;
        InformsNext(script, last);
        if probe.ProbeFails? {
          tryErr := Some(ProbeError);
          informed := informed + 1;
        } else if probe.Ready? {
          resolved := resolved + [tryCount];
          if !resolves {
            tryErr := Some(ResolveError);
          }
          reenqueue := false;
        }
        if now >= deadline {
          tryErr := Some(ContextError);
          reenqueue := false;
        } else if reenqueue {
          tryCount := tryCount + 1;
          now := now + pause + over;
          last := last + 1;
        }
    }
    BeginsLate(script, deadline, pause, last);
    AtMostCeil(last, deadline, pause);
    InformsAll(script, last);
    outcome := if tryErr.Some? then tryErr.value else Done;
  }

  /** The attempts among the first n whose probe failed. */
  function Informs(script: Script, n: nat): set<int> {
    set k | 0 <= k < n && script(k).Ran? && script(k).probe.ProbeFails?
  }

  lemma InformsNext(script: Script, n: nat)
    ensures |Informs(script, n + 1)|
            == |Informs(script, n)| + if script(n).Ran? && script(n).probe.ProbeFails? then 1 else 0
  {
    assert Informs(script, n + 1)
           == if script(n).Ran? && script(n).probe.ProbeFails? then Informs(script, n) + {n} else Informs(script, n);
  }

  lemma InformsAll(script: Script, last: nat)
    ensures Informs(script, last + 1) == set k | 0 <= k <= last && script(k).Ran? && script(k).probe.ProbeFails?
    ensures !script(last).Ran? ==> Informs(script, last + 1) == Informs(script, last)
  {
  }

  /** Try always returns: some attempt within the bound stops it. */
  lemma SomeAttemptStops(script: Script, deadline: nat, pause: nat) returns (k: nat)
    requires pause > 0
    ensures k <= CeilDiv(deadline, pause) && Stops(script, deadline, pause, k)
  {
    k := CeilDiv(deadline, pause);
    if forall i: nat :: i <= k ==> !Stops(script, deadline, pause, i) {
      BeginsLate(script, deadline, pause, k + 1);
      AtMostCeil(k + 1, deadline, pause);
    } else {
      k :| k <= CeilDiv(deadline, pause) && Stops(script, deadline, pause, k);
    }
  }

  /** The time an attempt takes from its beginning to its look at the context. */
  function Takes(a: Attempt): nat { if a.Ran? then a.wait + a.work else 0 }

  function Oversleeps(a: Attempt): nat { if a.Ran? then a.over else 0 }

  function First(script: Script, k: nat): seq<Attempt> { seq(k, i requires 0 <= i < k => script(i)) }

  /** When attempt k looks at the context, after attempts that all ended in a pause, everything has been
      counted: the waits and the work of all attempts including its own, and the pauses between them. */
  lemma {:induction false} LooksAfter(script: Script, pause: nat, k: nat)
    requires forall i: nat :: i < k ==> script(i).Ran?
    ensures Looks(script, pause, k)
            == k * pause + Total(First(script, k + 1), Takes) + Total(First(script, k), Oversleeps)
  {
    assert First(script, k + 1)[..k] == First(script, k);
    if k > 0 {
      LooksAfter(script, pause, k - 1);
      assert First(script, k)[..k - 1] == First(script, k - 1);
      assert k * pause == (k - 1) * pause + pause;
    }
  }
}
