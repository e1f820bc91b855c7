/** What overlapping operations can do from any state the scaling protocol reaches, and what they cannot:
    break the recorded order of times, scale down too early because of it, and turn KEDA around under a
    write. */
module ScaleLimits {
  import opened Runs
  import opened MergePatch
  import opened ScaleProtocol
  import opened ScaleSafety

  // ---- Single steps ----------------------------------------------------------------------

  /** From s to t by one call of goroutine g. */
  lemma Go(from: State, s: State, g: nat, reply: Reply, t: State)
    requires Reaches(Step, from, s) && g < |s.pcs| == |t.pcs| && t.pcs == s.pcs[g := t.pcs[g]]
    requires t.ticker == s.ticker
    requires Move(s.c, g, s.pcs[g], reply) == Some(Moved(t.c, t.pcs[g]))
    ensures Reaches(Step, from, t)
  {
    ReachNext(Step, from, s, Act(g, reply));
  }

  /** From s to t by another event. */
  lemma Do(from: State, s: State, e: Event, t: State)
    requires Reaches(Step, from, s) && Step(s, e).Some?
    requires t.c == Step(s, e).value.c && t.pcs == Step(s, e).value.pcs && t.ticker == Step(s, e).value.ticker
    ensures Reaches(Step, from, t)
  {
    ReachNext(Step, from, s, e);
  }

  /** s with goroutine |s.pcs|, the newest, at pc. */
  function With(s: State, pc: Pc): State { s.(pcs := s.pcs + [pc]) }

  /** The newest goroutine takes its next step. */
  lemma Newest(from: State, s: State, pc: Pc, reply: Reply, t: State, next: Pc)
    requires Reaches(Step, from, With(s, pc)) && Move(s.c, |s.pcs|, pc, reply) == Some(Moved(t.c, next))
    requires t.pcs == s.pcs && t.ticker == s.ticker
    ensures Reaches(Step, from, With(t, next))
  {
    hide Reaches, Run, Move;
    assert (s.pcs + [pc])[|s.pcs| := next] == s.pcs + [next];
    Go(from, With(s, pc), |s.pcs|, reply, With(t, next));
  }

  // ---- Short runs ------------------------------------------------------------------------

  /** The cooldown is edited and time passes. */
  lemma Wait(from: State, s: State, seconds: Seconds, now: int) returns (t: State)
    requires Reaches(Step, from, s) && s.c.now <= now
    ensures t == s.(c := s.c.(cooldown := seconds, now := now))
    ensures Reaches(Step, from, t)
  {
    hide Reaches, Run;
    var s1 := s.(c := s.c.(cooldown := seconds));
    t := s.(c := s.c.(cooldown := seconds, now := now));
    Do(from, s, EditCooldown(seconds), s1);
    Do(from, s1, Pass(now - s.c.now), t);
  }

  /** s with the newest tick in the next goroutine. */
  function Ticking(s: State): State { s.(ticker := Some(|s.pcs|)) }

  /** A tick over an old enough service, whose triggers are all idle, gets as far as its next call. */
  lemma TickGoesDown(from: State, s: State) returns (seen: Listed)
    requires Reaches(Step, from, s) && TickOver(s) && s.c.created + ResolveCooldown(s.c.cooldown) <= s.c.now
    requires var up := RecordedTime(s.c.status); up.Some? ==> up.value + ResolveCooldown(s.c.cooldown) <= s.c.now
    ensures seen == Listed(RecordedTime(s.c.status), ResolveCooldown(s.c.cooldown), |s.c.recorded|)
    ensures Reaches(Step, from, With(Ticking(s), if s.c.keda then Pause(seen) else Lock(Zero(seen))))
  {
    hide Reaches, Run, RecordedTime, ResolveCooldown;
    seen := Listed(RecordedTime(s.c.status), ResolveCooldown(s.c.cooldown), |s.c.recorded|);
    var u := Ticking(s);
    Do(from, s, Tick, With(u, List));
    Newest(from, u, List, Ok, u, Judge(seen));
    Newest(from, u, Judge(seen), Ok, u, Poll(seen));
    assert With(u, Poll(seen)).pcs[|s.pcs| := CheckCooldown(seen)] == With(u, CheckCooldown(seen)).pcs;
    Do(from, With(u, Poll(seen)), Decide(|s.pcs|, ScaleDown), With(u, CheckCooldown(seen)));
    Newest(from, u, CheckCooldown(seen), Ok, u, if s.c.keda then Pause(seen) else Lock(Zero(seen)));
  }

  /** A goroutine that can come to its end without changing anything, while nobody else moves. */
  predicate CanEnd(c: Cluster, pc: Pc) {
    && !pc.Get? && !pc.Write? && !pc.ReadStatus? && !pc.PatchStatus?
    && (c.lock.None? || (c.keda && !pc.Lock?))
  }

  /** The number of refused calls until then. */
  function Rank(pc: Pc): nat {
    match pc
    case Stamp(_) => 3
    case PatchTime(_, _) | Judge(_) | CheckCooldown(_) => 2
    case Done => 0
    case _ => 1
  }

  lemma RefusedMove(c: Cluster, g: nat, pc: Pc)
    requires CanEnd(c, pc) && !pc.Done? && !pc.Poll? && !pc.Lock?
    ensures Move(c, g, pc, Refused).Some?
    ensures var m := Move(c, g, pc, Refused).value; m.c == c && CanEnd(c, m.pc) && Rank(m.pc) < Rank(pc)
  {
    hide Apply, PausePatch, ResolveCooldown, RecordedTime;
  }

  /** All its calls are refused, and its triggers ask for nothing. */
  lemma {:induction false} Ends(from: State, s: State, g: nat)
    requires Reaches(Step, from, s) && g < |s.pcs| && CanEnd(s.c, s.pcs[g])
    ensures Reaches(Step, from, s.(pcs := s.pcs[g := Done]))
    decreases Rank(s.pcs[g])
  {
    hide Reaches, Run;
    var end := s.(pcs := s.pcs[g := Done]);
    var pc := s.pcs[g];
    if pc.Done? {
      assert end == s;
    } else if pc.Poll? {
      Do(from, s, Decide(g, NoScale), end);
    } else if pc.Lock? {
      var u := s.(c := s.c.(lock := Some(g)), pcs := s.pcs[g := Get(pc.goal)]);
      Go(from, s, g, Ok, u);
      Go(from, u, g, Refused, end);
    } else {
      hide Move;
      RefusedMove(s.c, g, pc);
      var u := s.(pcs := s.pcs[g := Move(s.c, g, pc, Refused).value.pc]);
      Go(from, s, g, Refused, u);
      Ends(from, u, g);
      assert u.pcs[g := Done] == end.pcs;
    }
  }

  /** The tick under way comes to its end, and the next can start. */
  lemma EndTick(from: State, s: State) returns (t: State)
    requires Reaches(Step, from, s) && TickInv(s)
    requires s.ticker.Some? ==> CanEnd(s.c, s.pcs[s.ticker.value])
    ensures Reaches(Step, from, t) && TickOver(t) && t.c == s.c && |t.pcs| == |s.pcs|
    ensures forall h :: 0 <= h < |s.pcs| && s.ticker != Some(h) ==> t.pcs[h] == s.pcs[h]
  {
    hide Reaches, Run;
    t := s;
    if s.ticker.Some? {
      t := s.(pcs := s.pcs[s.ticker.value := Done]);
      Ends(from, s, s.ticker.value);
    }
  }

  /** A request takes its time, and gets as far as recording it. */
  lemma RequestStamps(from: State, s: State)
    requires Reaches(Step, from, s)
    ensures Reaches(Step, from, With(s, PatchTime(1, s.c.now)))
  {
    hide Reaches, Run;
    Do(from, s, Request(1), With(s, Stamp(1)));
    Newest(from, s, Stamp(1), Ok, s, PatchTime(1, s.c.now));
  }

  /** The annotations after the pause or the unpause of a service. */
  function Turned(s: State, paused: bool): State {
    if s.c.keda then s.(c := s.c.(annotations := Apply(s.c.annotations, PausePatch(paused)))) else s
  }

  /** The newest goroutine, past its patch of KEDA, takes the free lock and reads the replicas. */
  lemma LocksAndReads(from: State, s: State, goal: Goal)
    requires Reaches(Step, from, With(s, Lock(goal))) && s.c.lock.None? && !Scaled(s.c.replicas, Wanted(goal))
    ensures Reaches(Step, from, With(s.(c := s.c.(lock := Some(|s.pcs|))), Write(goal, s.c.replicas)))
  {
    hide Reaches, Run;
    var s1 := s.(c := s.c.(lock := Some(|s.pcs|)));
    Newest(from, s, Lock(goal), Ok, s1, Get(goal));
    Newest(from, s1, Get(goal), Ok, s1, Write(goal, s.c.replicas));
  }

  /** Whoever holds the lock has its call refused and lets go. */
  lemma FreeLock(from: State, s: State) returns (t: State)
    requires Reaches(Step, from, s) && Inv(s)
    ensures Reaches(Step, from, t) && Inv(t) && t.c == s.c.(lock := None)
  {
    hide Reaches, Run, TimeInv, TickInv;
    t := s;
    if s.c.lock.Some? {
      var h := s.c.lock.value;
      assert Exclusive(s.c, h, s.pcs[h]);
      t := s.(c := s.c.(lock := None), pcs := s.pcs[h := Done]);
      Go(from, s, h, Refused, t);
      StepKeeps(s, Act(h, Refused));
    }
  }

  /** The lock is freed and the tick under way ended. */
  lemma ClearTheWay(from: State, s: State) returns (t: State)
    requires Reaches(Step, from, s) && Inv(s)
    ensures Reaches(Step, from, t) && TickOver(t) && t.c == s.c.(lock := None)
  {
    hide Reaches, Run;
    t := FreeLock(from, s);
    if t.ticker.Some? {
      assert Exclusive(t.c, t.ticker.value, t.pcs[t.ticker.value]);
    }
    t := EndTick(from, t);
  }

  /** A request whose time is not recorded scales an idle service up. */
  lemma Revive(from: State, s: State) returns (t: State)
    requires Reaches(Step, from, s) && s.c.lock.None? && s.c.replicas == 0 && TickOver(s)
    ensures Reaches(Step, from, t) && t.c.replicas > 0 && TickOver(t)
    ensures t.c == Turned(s, false).c.(replicas := 1, served := s.c.served + [1])
  {
    hide Reaches, Run, Apply, PausePatch;
    RequestStamps(from, s);
    Newest(from, s, PatchTime(1, s.c.now), Refused, s, if s.c.keda then Unpause(1) else Lock(Up(1)));
    var u := Turned(s, false);
    if s.c.keda {
      Newest(from, s, Unpause(1), Ok, u, Lock(Up(1)));
    }
    LocksAndReads(from, u, Up(1));
    var v := u.(c := u.c.(lock := Some(|s.pcs|)));
    var w := u.(c := u.c.(replicas := 1, served := s.c.served + [1]));
    Newest(from, v, Write(Up(1), 0), Ok, w, Done);
    t := With(w, Done);
  }

  // ---- Cooldown --------------------------------------------------------------------------

  /** From now on, whoever is about to write 0, having listed the times recorded by now, respects them
      all. */
  ghost predicate RespectsAll(s: State) {
    forall t: State, g: nat ::
      Reaches(Step, s, t) && g < |t.pcs| && t.pcs[g].Write? && t.pcs[g].goal.Zero?
      && t.pcs[g].goal.seen.stamps == |s.c.recorded| <= |t.c.recorded|
      ==> AllCooledDown(t.c, t.pcs[g].goal.seen)
  }

  /** Where a recorded time is not covered, a tick can scale down less than one cooldown after it: the
      longest cooldown does it. */
  lemma TooEarly(from: State, s: State) returns (t: State, g: nat)
    requires Reaches(Step, from, s) && Inv(s) && !Covered(s.c)
    ensures Reaches(Step, from, t) && g < |t.pcs| && t.pcs[g].Write? && t.pcs[g].goal.Zero?
    ensures t.pcs[g].goal.seen.stamps == |s.c.recorded| == |t.c.recorded| && !AllCooledDown(t.c, t.pcs[g].goal.seen)
  {
    hide Reaches, Run, Turned, Apply, PausePatch;
    var r :| r in s.c.recorded && r > Protecting(s.c) && r + LONGEST > s.c.now;
    var s1 := ClearTheWay(from, s);
    var s2 := s1;
    if s1.c.replicas == 0 {
      s2 := Revive(from, s1);
      TurnedSame(s1, false);
    }
    var s3 := Wait(from, s2, 604_800, Max(s.c.now, Protecting(s.c) + LONGEST));
    t := DownNow(from, s3);
    g := |s3.pcs|;
    var i :| 0 <= i < |s.c.recorded| && s.c.recorded[i] == r;
    assert t.c.recorded[i] + t.pcs[g].goal.seen.cooldown > t.c.now;
  }

  lemma TurnedSame(s: State, paused: bool)
    ensures var t := Turned(s, paused);
      t.pcs == s.pcs && t.c == s.c.(annotations := t.c.annotations)
  {
  }

  /** The tick of an idle, cooled down service with a free lock gets as far as writing 0. */
  lemma DownNow(from: State, s: State) returns (t: State)
    requires Reaches(Step, from, s) && s.c.lock.None? && s.c.replicas > 0 && TickOver(s)
    requires s.c.created + ResolveCooldown(s.c.cooldown) <= s.c.now
    requires var up := RecordedTime(s.c.status); up.Some? ==> up.value + ResolveCooldown(s.c.cooldown) <= s.c.now
    ensures var seen := Listed(RecordedTime(s.c.status), ResolveCooldown(s.c.cooldown), |s.c.recorded|);
      |t.pcs| > |s.pcs| && t.pcs[|s.pcs|] == Write(Zero(seen), s.c.replicas)
    ensures Reaches(Step, from, t) && t.c.recorded == s.c.recorded && t.c.now == s.c.now
  {
    hide Reaches, Run, Apply, PausePatch, RecordedTime, ResolveCooldown;
    var seen := TickGoesDown(from, s);
    var u := Turned(Ticking(s), true);
    if s.c.keda {
      Newest(from, Ticking(s), Pause(seen), Ok, u, Lock(Zero(seen)));
    }
    LocksAndReads(from, u, Zero(seen));
    t := With(u.(c := u.c.(lock := Some(|s.pcs|))), Write(Zero(seen), s.c.replicas));
  }

  /** In every reachable state: scaling down will respect every time recorded by now, if and only if each
      of them is no later than the one recorded last or than the creation of the service, or is seven days
      old already. */
  lemma CooldownSafeIff(s0: State, s: State)
    requires Start(s0) && Reaches(Step, s0, s)
    ensures RespectsAll(s) <==> (s.c.recorded != [] ==>
              forall r :: r in s.c.recorded ==>
                            r <= Max(s.c.created, s.c.recorded[|s.c.recorded| - 1]) || r + 604_800 * SECOND <= s.c.now)
  {
    AlwaysInv(s0, s);
    hide Reaches, Run, Inv;
    if Covered(s.c) {
      forall t: State, g: nat
        | Reaches(Step, s, t) && g < |t.pcs| && t.pcs[g].Write? && t.pcs[g].goal.Zero?
          && t.pcs[g].goal.seen.stamps == |s.c.recorded| <= |t.c.recorded|
        ensures AllCooledDown(t.c, t.pcs[g].goal.seen)
      {
        LastProtects(s, t, g);
      }
    } else {
      ReachSelf(Step, s);
      var t, g := TooEarly(s, s);
    }
  }

  lemma LastProtects(s: State, t: State, g: nat)
    requires Inv(s) && Covered(s.c) && Reaches(Step, s, t)
    requires g < |t.pcs| && t.pcs[g].Write? && t.pcs[g].goal.Zero?
    requires t.pcs[g].goal.seen.stamps == |s.c.recorded| <= |t.c.recorded|
    ensures AllCooledDown(t.c, t.pcs[g].goal.seen)
  {
    Later(s, t);
    hide Reaches, Run;
    assert InTime(t.c, t.pcs[g]);
    assert t.c.recorded[..|s.c.recorded|] == s.c.recorded;
    forall i | 0 <= i < |s.c.recorded| ensures t.c.recorded[i] + t.pcs[g].goal.seen.cooldown <= t.c.now {
      assert t.c.recorded[i] == s.c.recorded[i] && s.c.recorded[i] in s.c.recorded;
    }
  }

  /** A state in which two requests have taken their times, the first before the second. */
  lemma TwoStamps(from: State, s: State) returns (t: State, first: int)
    requires Reaches(Step, from, s)
    ensures Reaches(Step, from, t) && t.c == s.c.(now := first + 1) && s.c.created < first
    ensures t.pcs == s.pcs + [PatchTime(1, first), PatchTime(1, first + 1)]
  {
    hide Reaches, Run;
    first := Max(s.c.now, s.c.created + 1);
    var s1 := Wait(from, s, s.c.cooldown, first);
    RequestStamps(from, s1);
    var s2 := With(s1, PatchTime(1, first));
    var s3 := Wait(from, s2, s.c.cooldown, first + 1);
    RequestStamps(from, s3);
    t := With(s3, PatchTime(1, first + 1));
  }

  /** From every reachable state, times can be recorded out of order: two requests take their times one
      after the other and record them the other way round. Then a tick can scale down too early. */
  lemma OlderTimeLandsLast(s0: State, s: State) returns (t: State, u: State, g: nat)
    requires Start(s0) && Reaches(Step, s0, s)
    ensures Reaches(Step, s, t) && !Covered(t.c)
    ensures Reaches(Step, s, u) && g < |u.pcs| && u.pcs[g].Write? && u.pcs[g].goal.Zero?
    ensures u.pcs[g].goal.seen.stamps == |t.c.recorded| == |u.c.recorded| && !AllCooledDown(u.c, u.pcs[g].goal.seen)
  {
    AlwaysInv(s0, s);
    hide Reaches, Run, Inv, Apply;
    ReachSelf(Step, s);
    var s1, first := TwoStamps(s, s);
    t := LandsSwapped(s, s1, |s.pcs|, first);
    Later(s, t);
    u, g := TooEarly(s, t);
  }

  lemma LandsSwapped(from: State, s: State, g: nat, first: int) returns (t: State)
    requires Reaches(Step, from, s) && |s.pcs| == g + 2 && s.c.created < first && s.c.now == first + 1
    requires s.pcs[g] == PatchTime(1, first) && s.pcs[g + 1] == PatchTime(1, first + 1)
    ensures Reaches(Step, from, t) && !Covered(t.c)
  {
    hide Reaches, Run, Apply;
    var next := if s.c.keda then Unpause(1) else Lock(Up(1));
    var s1 := s.(c := s.c.(status := Apply(s.c.status, map[LastScaledUpTime := Some(Time(first + 1))]),
                           recorded := s.c.recorded + [first + 1]), pcs := s.pcs[g + 1 := next]);
    Go(from, s, g + 1, Ok, s1);
    t := s1.(c := s1.c.(status := Apply(s1.c.status, map[LastScaledUpTime := Some(Time(first))]),
                        recorded := s1.c.recorded + [first]), pcs := s1.pcs[g := next]);
    Go(from, s1, g, Ok, t);
    assert t.c.recorded[|s.c.recorded|] == first + 1 && first + 1 in t.c.recorded;
  }

  // ---- KEDA ------------------------------------------------------------------------------

  /** A request gets as far as unpausing KEDA. */
  lemma AboutToUnpause(from: State, s: State)
    requires Reaches(Step, from, s) && s.c.keda
    ensures Reaches(Step, from, With(s, Unpause(1)))
  {
    hide Reaches, Run;
    RequestStamps(from, s);
    Newest(from, s, PatchTime(1, s.c.now), Refused, s, Unpause(1));
  }

  /** A tick gets as far as pausing KEDA, once enough time has passed. */
  lemma AboutToPause(from: State, s: State) returns (t: State, seen: Listed)
    requires Reaches(Step, from, s) && s.c.keda && Shown(s.c) && TickOver(s)
    ensures Reaches(Step, from, With(t, Pause(seen))) && t.pcs == s.pcs && t.c.keda
  {
    hide Reaches, Run;
    t := Wait(from, s, 1, Max(s.c.now, s.c.created) + SECOND);
    assert s.c.recorded != [] ==> s.c.recorded[|s.c.recorded| - 1] in s.c.recorded;
    seen := TickGoesDown(from, t);
    t := Ticking(t);
  }

  /** While h stays about to write, some step can turn KEDA the other way. */
  ghost predicate CanTurn(s: State, h: nat)
    requires h < |s.pcs| && s.pcs[h].Write?
  {
    exists t: State, e: Event ::
      && Reaches(Step, s, t) && h < |t.pcs| && t.pcs[h] == s.pcs[h]
      && Step(t, e).Some? && Contrary(t, e, s.pcs[h].goal)
  }

  /** The tick under way is h itself, or has paused or unpaused KEDA already and waits for the lock. */
  predicate TickHeld(s: State, h: nat) {
    s.ticker.Some? && s.ticker.value < |s.pcs| && (s.ticker.value == h || s.pcs[s.ticker.value].Lock?)
  }

  /** As long as h is about to write, a tick that is held stays where it is. */
  ghost predicate StillHeld(s: State, h: nat, u: State)
    requires h < |s.pcs| && TickHeld(s, h)
  {
    && Inv(u) && |u.pcs| >= |s.pcs|
    && (u.pcs[h] == s.pcs[h] ==> u.ticker == s.ticker && u.pcs[u.ticker.value] == s.pcs[s.ticker.value])
    && (u.pcs[h] == s.pcs[h] || u.pcs[h].Done?)
  }

  lemma StaysHeld(s: State, h: nat, u: State, e: Event)
    requires h < |s.pcs| && s.pcs[h].Write? && TickHeld(s, h) && StillHeld(s, h, u) && Step(u, e).Some?
    ensures StillHeld(s, h, Step(u, e).value)
  {
    StepKeeps(u, e);
    assert Exclusive(u.c, h, u.pcs[h]);
    hide Inv, Apply, PausePatch, ResolveCooldown, RecordedTime, ModePatch;
  }

  lemma HeldTickIsHarmless(s: State, h: nat, t: State, e: Event)
    requires Inv(s) && h < |s.pcs| && s.pcs[h].Write? && s.pcs[h].goal.Up? && TickHeld(s, h)
    requires Reaches(Step, s, t) && h < |t.pcs| && t.pcs[h] == s.pcs[h] && Step(t, e).Some?
    ensures !Contrary(t, e, s.pcs[h].goal)
  {
    hide Reaches, Run, Step, Inv;
    ghost var inv := (u: State) => StillHeld(s, h, u);
    forall u: State, f: Event | inv(u) && Step(u, f).Some? ensures inv(Step(u, f).value) { StaysHeld(s, h, u, f); }
    Invariance(Step, inv, s, t);
    assert TickInv(t) by { InvTick(t); }
  }

  lemma InvTick(s: State)
    requires Inv(s)
    ensures TickInv(s) && Shown(s.c)
  {
  }

  /** The step that turns KEDA around is brought about: a request's unpause, or the pause of the tick under
      way or of the next one. */
  lemma TurnsAround(s: State, h: nat) returns (t: State, e: Event)
    requires Inv(s) && s.c.keda && h < |s.pcs| && s.pcs[h].Write?
    requires s.pcs[h].goal.Zero? || !TickHeld(s, h)
    ensures Reaches(Step, s, t) && h < |t.pcs| && t.pcs[h] == s.pcs[h]
    ensures Step(t, e).Some? && Contrary(t, e, s.pcs[h].goal)
  {
    assert Exclusive(s.c, h, s.pcs[h]);
    assert s.ticker.Some? ==> Exclusive(s.c, s.ticker.value, s.pcs[s.ticker.value]);
    InvTick(s);
    hide Reaches, Run, Inv, Apply, PausePatch;
    ReachSelf(Step, s);
    if s.pcs[h].goal.Zero? {
      AboutToUnpause(s, s);
      t, e := With(s, Unpause(1)), Act(|s.pcs|, Ok);
    } else {
      var u := EndTick(s, s);
      var v, seen := AboutToPause(s, u);
      t, e := With(v, Pause(seen)), Act(|v.pcs|, Ok);
    }
  }

  /** Whoever is about to write, in whatever reachable state, can have KEDA turned the other way under it,
      if and only if it is about to write 0, or it is a request and the tick under way, if there is one, is
      not waiting for the lock. */
  lemma KedaTurnIff(s0: State, s: State, h: nat)
    requires Start(s0) && Reaches(Step, s0, s) && s.c.keda && h < |s.pcs| && s.pcs[h].Write?
    ensures CanTurn(s, h) <==> s.pcs[h].goal.Zero? || !TickHeld(s, h)
  {
    AlwaysInv(s0, s);
    hide Reaches, Run, Inv, Step, Contrary;
    if s.pcs[h].goal.Zero? || !TickHeld(s, h) {
      var t, e := TurnsAround(s, h);
    } else {
      forall t: State, e: Event
        | Reaches(Step, s, t) && h < |t.pcs| && t.pcs[h] == s.pcs[h] && Step(t, e).Some?
        ensures !Contrary(t, e, s.pcs[h].goal)
      {
        HeldTickIsHarmless(s, h, t, e);
      }
    }
  }
}
