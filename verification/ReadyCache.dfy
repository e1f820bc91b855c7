/** The throttler's cache of readiness: a check that finds nothing cached scans the endpoints; a scan
    that finds the target ready caches it and arms a timer that deletes the entry. Checks that missed
    before the entry was there scan as well, so timers overlap. A scan, its store and its timer are one
    step, and timers fire on time. */
module ReadyCache {
  import opened Runs

  /** `missed`: checks that found nothing and have still to scan. `timers`: when deletions are due.
      `scanned`: when the scan behind the entry was made. */
  datatype State = State(keep: nat, now: int, cached: Option<bool>, scanned: int, missed: nat, timers: multiset<int>)

  datatype Event = Pass(d: nat) | Check | Scan(ready: bool) | Fire(due: int)

  function Step(s: State, e: Event): Option<State> {
    match e
    case Pass(d) =>
      if forall due | due in s.timers :: s.now + d <= due then Some(s.(now := s.now + d)) else None
    case Check => Some(if s.cached.Some? then s else s.(missed := s.missed + 1))
    case Scan(ready) =>
      if s.missed == 0 then None
      else if ready then Some(s.(missed := s.missed - 1, cached := Some(true), scanned := s.now,
                                 timers := s.timers + multiset{s.now + s.keep}))
      else Some(s.(missed := s.missed - 1))
    case Fire(due) =>
      if due in s.timers && due <= s.now then Some(s.(timers := s.timers - multiset{due}, cached := None)) else None
  }

  function Fresh(keep: nat, now: int): State { State(keep, now, None, now, 0, multiset{}) }

  ghost predicate Inv(s: State) {
    && (forall due :: due in s.timers ==> s.now <= due)
    && s.scanned <= s.now
    && (s.cached.Some? ==> s.cached.value && s.scanned + s.keep in s.timers)
  }

  lemma StepKeeps(s: State, e: Event)
    requires Inv(s) && Step(s, e).Some?
    ensures Inv(Step(s, e).value)
  {
  }

  /** Whatever is cached is true, has its deletion pending no later than `keep` after the scan it
      saves, and so is never older than that, however many timers overlap. */
  lemma CachedIsRecent(keep: nat, now: int, s: State)
    requires Reaches(Step, Fresh(keep, now), s) && s.cached.Some?
    ensures s.cached.value && s.scanned <= s.now <= s.scanned + s.keep
    ensures exists due :: due in s.timers && due <= s.scanned + s.keep
  {
    hide Reaches, Run;
    forall u: State, e: Event | Inv(u) && Step(u, e).Some? ensures Inv(Step(u, e).value) {
      hide Step, Inv;
      StepKeeps(u, e);
    }
    Invariance(Step, Inv, Fresh(keep, now), s);
    assert s.scanned + s.keep in s.timers;
  }

  /** A scan that found the target ready. */
  predicate FoundReady(s: State, e: Event) { e == Scan(true) }

  /** An entry appears, or is renewed, only at a scan that found the target ready, and stands for that
      moment; and every scan uses up one miss. */
  lemma StoredByScan(s: State, e: Event)
    requires Step(s, e).Some?
    ensures var t := Step(s, e).value;
      && (t.cached.Some? && (s.cached.None? || t.scanned != s.scanned) ==> FoundReady(s, e) && t.scanned == s.now)
      && (FoundReady(s, e) ==> t.cached == Some(true) && t.scanned == s.now)
      && (e.Scan? ==> t.missed + 1 == s.missed)
  {
  }

  /** Whatever is cached after a run comes from an event of that run: a scan that found the target ready,
      at the time the entry stands for. */
  lemma {:induction false} CachedWasFound(keep: nat, now: int, es: seq<Event>) returns (k: nat)
    requires Run(Step, Fresh(keep, now), es).Some? && Run(Step, Fresh(keep, now), es).value.cached.Some?
    ensures k < |es| && es[k] == Scan(true)
    ensures Run(Step, Fresh(keep, now), es[..k]).Some?
    ensures Run(Step, Fresh(keep, now), es[..k]).value.now == Run(Step, Fresh(keep, now), es).value.scanned
  {
    hide Step;
    var n := |es| - 1;
    var before := Run(Step, Fresh(keep, now), es[..n]).value;
    StoredByScan(before, es[n]);
    if FoundReady(before, es[n]) {
      k := n;
    } else {
      k := CachedWasFound(keep, now, es[..n]);
      assert es[..n][..k] == es[..k];
    }
  }

  /** The steps until an entry is deleted. */
  function KeptStep(s: State, e: Event): Option<State> { if e.Fire? then None else Step(s, e) }

  /** As long as an entry is kept and no earlier miss is left, no check leads to a scan. */
  lemma NoScanWhileCached(s: State, t: State, ready: bool)
    requires s.cached.Some? && s.missed == 0 && Reaches(KeptStep, s, t)
    ensures Step(t, Scan(ready)).None? && t.cached == s.cached && t.scanned == s.scanned
  {
    ghost var inv := (u: State) => u.missed == 0 && u.cached == s.cached && u.scanned == s.scanned;
    assert inv(s);
    hide Reaches, Run;
    Invariance(KeptStep, inv, s, t);
  }

  /** With no timer left, a check that finds nothing can go on to a scan, and the entry that makes is deleted
      `keep` later and not before. */
  lemma MissScansAndExpires(from: State, s: State) returns (t: State, u: State)
    requires Reaches(Step, from, s) && s.cached.None? && s.timers == multiset{}
    ensures Reaches(Step, from, t) && t.cached == Some(true) && t.now == s.now
    ensures Reaches(Step, from, u) && u.cached.None? && u.now == s.now + s.keep
    ensures forall due :: Step(t, Fire(due)).Some? ==> s.keep == 0
  {
    hide Reaches, Run;
    ReachNext(Step, from, s, Check);
    var a := Step(s, Check).value;
    ReachNext(Step, from, a, Scan(true));
    t := Step(a, Scan(true)).value;
    ReachNext(Step, from, t, Pass(s.keep));
    var b := Step(t, Pass(s.keep)).value;
    ReachNext(Step, from, b, Fire(s.now + s.keep));
    u := Step(b, Fire(s.now + s.keep)).value;
  }
}
