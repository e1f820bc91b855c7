/** What becomes of one call of the scaling protocol: replicas come from what was asked for, and a request,
    a tick or a mode switch that nobody interferes with does to the cluster what the sequential code says,
    whatever its calls to the API server are answered. */
module ScaleCalls {
  import opened Runs
  import opened MergePatch
  import opened ScaleProtocol
  import opened ScaleSafety
  import opened ScaleLimits
  import T = Tick

  // ---- Nothing that was not asked for ----------------------------------------------------

  /** How many replicas a goroutine is going to scale up to. */
  function Aim(pc: Pc): Option<nat> {
    match pc
    case Stamp(n) => Some(n)
    case PatchTime(n, _) => Some(n)
    case Unpause(n) => Some(n)
    case _ => if GoalOf(pc).Some? && GoalOf(pc).value.Up? then Some(GoalOf(pc).value.n) else None
  }

  /** A request for n replicas, or the decision of a tick to scale up to them. */
  function Asks(n: nat): (State, Event) -> bool {
    (s: State, e: Event) =>
      (e.Request? && e.n == n) || (e.Decide? && e.direction.ScaleUp? && e.direction.n == n)
  }

  /** Somebody aims at n replicas, or they have been served. */
  predicate InPlay(s: State, n: nat) { n in s.c.served || exists pc :: pc in s.pcs && Aim(pc) == Some(n) }

  lemma MoveAims(c: Cluster, g: nat, pc: Pc, reply: Reply, m: Moved, n: nat)
    requires Move(c, g, pc, reply) == Some(m)
    ensures Aim(m.pc) == Some(n) || n in m.c.served ==> Aim(pc) == Some(n) || n in c.served
  {
    hide Apply, PausePatch, ResolveCooldown, RecordedTime;
  }

  lemma ComesIntoPlay(s: State, e: Event, n: nat)
    requires Step(s, e).Some? && InPlay(Step(s, e).value, n)
    ensures InPlay(s, n) || Asks(n)(s, e)
  {
    hide Move, ModePatch;
    var t := Step(s, e).value;
    if e.Act? {
      var m := Move(s.c, e.g, s.pcs[e.g], e.reply).value;
      MoveAims(s.c, e.g, s.pcs[e.g], e.reply, m, n);
      assert s.pcs[e.g] in s.pcs;
    }
    if n !in t.c.served {
      var h :| 0 <= h < |t.pcs| && Aim(t.pcs[h]) == Some(n);
      assert h < |s.pcs| ==> s.pcs[h] in s.pcs;
    }
  }

  /** Whatever replica count was served in a run was asked for in it, by a request or a tick's decision; so
      the replicas of a run without scaling down are those of the start or were asked for. */
  lemma {:induction false} ServedWasAsked(s0: State, es: seq<Event>, n: nat)
    requires Start(s0) && Run(Step, s0, es).Some? && InPlay(Run(Step, s0, es).value, n)
    ensures Ever(Step, s0, es, Asks(n))
  {
    NobodyPlays(s0, n);
    hide Step, InPlay, Asks;
    if es != [] {
      var before := Run(Step, s0, es[..|es| - 1]).value;
      ComesIntoPlay(before, es[|es| - 1], n);
      if InPlay(before, n) {
        ServedWasAsked(s0, es[..|es| - 1], n);
      }
    }
  }

  lemma NobodyPlays(s: State, n: nat)
    requires Start(s)
    ensures !InPlay(s, n)
  {
  }

  // ---- One call alone --------------------------------------------------------------------

  function PausedFlag(annotations: map<Annotation, string>): Option<bool> {
    if Paused in annotations then Some(annotations[Paused] == "true") else None
  }

  /** The service as the sequential code sees it. */
  function View(c: Cluster): T.Target { T.Target(c.replicas, PausedFlag(c.annotations), RecordedTime(c.status)) }

  lemma PatchShows(annotations: map<Annotation, string>, paused: bool)
    ensures PausedFlag(Apply(annotations, PausePatch(paused))) == Some(paused)
  {
  }

  /** The newest goroutine, at the free lock, reads and writes the replicas. */
  lemma WriteAlone(from: State, s: State, goal: Goal, calls: T.Calls) returns (t: State)
    requires Reaches(Step, from, With(s, Lock(goal))) && s.c.lock.None?
    ensures Reaches(Step, from, With(t, Done)) && t.pcs == s.pcs && t.ticker == s.ticker
    ensures View(t.c) == T.Scale(View(s.c), Wanted(goal), calls)
    ensures t.c.status == s.c.status && t.c.recorded == s.c.recorded && t.c.lock.None?
  {
    hide Reaches, Run, RecordedTime, PausedFlag;
    var u := s.(c := s.c.(lock := Some(|s.pcs|)));
    Newest(from, s, Lock(goal), Ok, u, Get(goal));
    if !calls.get.Ok? {
      t := s;
      Newest(from, u, Get(goal), calls.get, t, Done);
    } else if Scaled(s.c.replicas, Wanted(goal)) {
      t := s.(c := Fulfil(s.c, goal));
      Newest(from, u, Get(goal), Ok, t, Done);
    } else {
      Newest(from, u, Get(goal), Ok, u, Write(goal, s.c.replicas));
      t := if calls.patch.Refused? then s else s.(c := Fulfil(s.c, goal).(replicas := Wanted(goal)));
      Newest(from, u, Write(goal, s.c.replicas), calls.patch, t, Done);
    }
  }

  /** A scale-up alone, from the moment it takes its time: the time is recorded, KEDA unpaused and the
      replicas written, each as far as its call takes effect. */
  lemma ScaleUpAlone(from: State, s: State, n: Pos, item: T.Item, calls: T.Calls) returns (t: State)
    requires Reaches(Step, from, With(s, Stamp(n))) && s.c.lock.None? && s.c.now == calls.stamp
    requires item.keda == s.c.keda && item.minReplicas == n
    ensures Reaches(Step, from, With(t, Done)) && t.pcs == s.pcs && t.ticker == s.ticker && t.c.lock.None?
    ensures View(t.c) == T.FromZero(View(s.c), item, calls)
    ensures t.c.recorded == s.c.recorded + if calls.timePatch.Refused? then [] else [s.c.now]
  {
    Newest(from, s, Stamp(n), Ok, s, PatchTime(n, s.c.now));
    var u := Timed(from, s, n, calls.timePatch);
    if !s.c.keda {
      t := WriteAlone(from, u, Up(n), calls);
    } else {
      var v := KedaAlone(from, u, Unpause(n), false, Up(n), calls);
      t := v;
      if calls.kedaPatch.Ok? {
        t := WriteAlone(from, v, Up(n), calls);
      }
    }
  }

  lemma Timed(from: State, s: State, n: Pos, reply: Reply) returns (t: State)
    requires Reaches(Step, from, With(s, PatchTime(n, s.c.now)))
    ensures t.pcs == s.pcs && t.ticker == s.ticker && t.c.lock == s.c.lock && t.c.keda == s.c.keda
    ensures Reaches(Step, from, With(t, if s.c.keda then Unpause(n) else Lock(Up(n))))
    ensures View(t.c) == if reply.Refused? then View(s.c) else View(s.c).(lastUp := Some(s.c.now))
    ensures t.c.recorded == s.c.recorded + if reply.Refused? then [] else [s.c.now]
  {
    hide Reaches, Run;
    RecordsTime(s.c.status, s.c.now);
    hide Apply, RecordedTime, PausedFlag;
    t := if reply.Refused? then s
         else s.(c := s.c.(status := Apply(s.c.status, map[LastScaledUpTime := Some(Time(s.c.now))]),
                           recorded := s.c.recorded + [s.c.now]));
    assert s.c.recorded + [] == s.c.recorded;
    Newest(from, s, PatchTime(n, s.c.now), reply, t, if s.c.keda then Unpause(n) else Lock(Up(n)));
  }

  /** The pause or unpause of a tick or request, and where it goes on. */
  lemma KedaAlone(from: State, s: State, pc: Pc, paused: bool, goal: Goal, calls: T.Calls) returns (t: State)
    requires Reaches(Step, from, With(s, pc))
    requires if paused then pc.Pause? && goal == Zero(pc.seen) else pc.Unpause? && goal == Up(pc.n)
    ensures t.pcs == s.pcs && t.ticker == s.ticker && t.c.lock == s.c.lock && t.c.recorded == s.c.recorded
    ensures Reaches(Step, from, With(t, if calls.kedaPatch.Ok? then Lock(goal) else Done))
    ensures View(t.c) == if calls.kedaPatch.Refused? then View(s.c) else View(s.c).(paused := Some(paused))
  {
    hide Reaches, Run;
    PatchShows(s.c.annotations, paused);
    hide Apply, PausePatch, RecordedTime, PausedFlag;
    t := if calls.kedaPatch.Refused? then s
         else s.(c := s.c.(annotations := Apply(s.c.annotations, PausePatch(paused))));
    Newest(from, s, pc, calls.kedaPatch, t, if calls.kedaPatch.Ok? then Lock(goal) else Done);
  }

  /** A request for n replicas that nobody interferes with. When no call fails it ends with at least n
      replicas, KEDA unpaused and its time recorded. */
  lemma RequestAlone(from: State, s: State, n: Pos, item: T.Item, calls: T.Calls) returns (t: State)
    requires Reaches(Step, from, s) && s.c.lock.None? && s.c.now == calls.stamp
    requires item.keda == s.c.keda && item.minReplicas == n
    ensures Reaches(Step, from, t) && t.pcs == s.pcs + [Done] && t.ticker == s.ticker && t.c.lock.None?
    ensures View(t.c) == T.FromZero(View(s.c), item, calls)
    ensures calls.timePatch.Ok? && calls.kedaPatch.Ok? && calls.get.Ok? && calls.patch.Ok? ==>
              && t.c.replicas == Max(s.c.replicas, n) && t.c.recorded == s.c.recorded + [s.c.now]
              && RecordedTime(t.c.status) == Some(s.c.now)
              && (s.c.keda ==> PausedFlag(t.c.annotations) == Some(false))
  {
    hide Reaches, Run, RecordedTime, PausedFlag;
    Do(from, s, Request(n), With(s, Stamp(n)));
    t := ScaleUpAlone(from, s, n, item, calls);
    t := With(t, Done);
  }

  /** A scale-down alone, from its look at the cooldown. */
  lemma ScaleDownAlone(from: State, s: State, seen: Listed, item: T.Item, calls: T.Calls) returns (t: State)
    requires Reaches(Step, from, With(s, CheckCooldown(seen))) && s.c.lock.None? && s.c.now == calls.handled
    requires item.keda == s.c.keda && item.lastUp == seen.lastUp && ResolveCooldown(item.seconds) == seen.cooldown
    ensures Reaches(Step, from, With(t, Done)) && t.pcs == s.pcs && t.ticker == s.ticker
    ensures View(t.c) == T.ToZero(View(s.c), item, calls)
  {
    hide Reaches, Run, RecordedTime, PausedFlag, ResolveCooldown;
    if seen.lastUp.Some? && s.c.now - seen.lastUp.value < seen.cooldown {
      t := s;
      Newest(from, s, CheckCooldown(seen), Ok, t, Done);
    } else if !s.c.keda {
      Newest(from, s, CheckCooldown(seen), Ok, s, Lock(Zero(seen)));
      t := WriteAlone(from, s, Zero(seen), calls);
    } else {
      Newest(from, s, CheckCooldown(seen), Ok, s, Pause(seen));
      var v := KedaAlone(from, s, Pause(seen), true, Zero(seen), calls);
      t := v;
      if calls.kedaPatch.Ok? {
        t := WriteAlone(from, v, Zero(seen), calls);
      }
    }
  }

  /** Time passes while the newest goroutine stands at pc. */
  lemma WaitAt(from: State, s: State, pc: Pc, now: int) returns (t: State)
    requires Reaches(Step, from, With(s, pc)) && s.c.now <= now
    ensures t == s.(c := s.c.(now := now)) && Reaches(Step, from, With(t, pc))
  {
    hide Reaches, Run;
    t := s.(c := s.c.(now := now));
    Do(from, With(s, pc), Pass(now - s.c.now), With(t, pc));
  }

  function DirectionOf(item: T.Item, v: T.Verdict): Direction {
    if v == T.Decided(T.ScaleDown) then ScaleDown
    else if v == T.Decided(T.ScaleUp) then ScaleUp(item.minReplicas)
    else NoScale
  }

  /** The tick decides what its triggers say. */
  lemma Decides(from: State, s: State, seen: Listed, direction: Direction)
    requires Reaches(Step, from, With(s, Poll(seen))) && s.ticker == Some(|s.pcs|)
    ensures Reaches(Step, from, With(s, match direction
                                        case ScaleDown => CheckCooldown(seen)
                                        case ScaleUp(n) => Stamp(n)
                                        case NoScale => Done))
  {
    hide Reaches, Run;
    var next := match direction case ScaleDown => CheckCooldown(seen) case ScaleUp(n) => Stamp(n) case NoScale => Done;
    assert With(s, Poll(seen)).pcs[|s.pcs| := next] == With(s, next).pcs;
    Do(from, With(s, Poll(seen)), Decide(|s.pcs|, direction), With(s, next));
  }

  /** A tick over a listed service that nobody interferes with does what the sequential tick does. */
  lemma TickAlone(from: State, s: State, item: T.Item, calls: T.Calls) returns (t: State)
    requires Reaches(Step, from, s) && TickOver(s) && s.c.lock.None?
    requires item.readable && item.created == s.c.created && item.seconds == s.c.cooldown
    requires item.lastUp == RecordedTime(s.c.status) && item.keda == s.c.keda
    requires s.c.now <= calls.polled <= calls.handled && calls.polled <= calls.stamp
    ensures Reaches(Step, from, t) && t.pcs == s.pcs + [Done] && t.ticker == Some(|s.pcs|)
    ensures View(t.c) == T.Alone(View(s.c), item, calls)
  {
    hide Reaches, Run, RecordedTime, PausedFlag, ResolveCooldown, T.Poll;
    var seen := Listed(RecordedTime(s.c.status), ResolveCooldown(s.c.cooldown), |s.c.recorded|);
    var u := Ticking(s);
    Do(from, s, Tick, With(u, List));
    Newest(from, u, List, Ok, u, Judge(seen));
    var v := WaitAt(from, u, Judge(seen), calls.polled);
    if item.created + seen.cooldown > calls.polled {
      Newest(from, v, Judge(seen), Ok, v, Done);
      t := With(v, Done);
    } else {
      Newest(from, v, Judge(seen), Ok, v, Poll(seen));
      var direction := DirectionOf(item, T.VerdictFor(item, calls.polled));
      Decides(from, v, seen, direction);
      t := Handled(from, v, seen, direction, item, calls);
    }
  }

  lemma Handled(from: State, v: State, seen: Listed, direction: Direction, item: T.Item, calls: T.Calls)
    returns (t: State)
    requires Reaches(Step, from, With(v, match direction
                                         case ScaleDown => CheckCooldown(seen)
                                         case ScaleUp(n) => Stamp(n)
                                         case NoScale => Done))
    requires v.c.lock.None? && v.c.now == calls.polled <= calls.handled && calls.polled <= calls.stamp
    requires direction.ScaleUp? ==> direction.n == item.minReplicas
    requires item.keda == v.c.keda && item.lastUp == seen.lastUp && ResolveCooldown(item.seconds) == seen.cooldown
    ensures Reaches(Step, from, t) && t.pcs == v.pcs + [Done] && t.ticker == v.ticker
    ensures View(t.c) == match direction
                         case ScaleDown => T.ToZero(View(v.c), item, calls)
                         case ScaleUp(_) => T.FromZero(View(v.c), item, calls)
                         case NoScale => View(v.c)
  {
    hide Reaches, Run, RecordedTime, PausedFlag, ResolveCooldown, T.ToZero, T.FromZero;
    match direction
    case ScaleDown =>
      var w := WaitAt(from, v, CheckCooldown(seen), calls.handled);
      t := ScaleDownAlone(from, w, seen, item, calls);
      t := With(t, Done);
    case ScaleUp(n) =>
      var w := WaitAt(from, v, Stamp(n), calls.stamp);
      t := ScaleUpAlone(from, w, n, item, calls);
      t := With(t, Done);
    case NoScale =>
      t := With(v, Done);
  }

  predicate ShowsTime(status: map<StatusKey, Json>, now: int) {
    LastReconciledTime in status && status[LastReconciledTime] == Time(now)
  }

  lemma SwitchPatch(read: map<StatusKey, Json>, newer: map<StatusKey, Json>, now: int, mode: string)
    ensures var after := Apply(newer, ModePatch(read, now, mode));
      && (Shows(after, mode) <==> !Shows(read, mode) || Shows(newer, mode))
      && (!ShowsTime(read, now) ==> ShowsTime(after, now))
      && RecordedTime(after) == RecordedTime(newer)
  {
    ModePatchMeans(read, newer, now, mode, LastScaledUpTime);
  }

  /** A mode switch that nobody interferes with, over a status read from a cache of any age: the status shows
      its mode then, unless the patch is refused or the cache showed the mode too early, and likewise the
      time of the switch; the recorded scale-up time stays. */
  lemma SwitchAlone(from: State, s: State, mode: string, cached: map<StatusKey, Json>, reply: Reply) returns (t: State)
    requires Reaches(Step, from, s)
    ensures Reaches(Step, from, t) && t.pcs == s.pcs + [Done] && t.c == s.c.(status := t.c.status)
    ensures Shows(t.c.status, mode) <==> Shows(s.c.status, mode) || (!reply.Refused? && !Shows(cached, mode))
    ensures !reply.Refused? && !ShowsTime(cached, s.c.now) ==> ShowsTime(t.c.status, s.c.now)
    ensures RecordedTime(t.c.status) == RecordedTime(s.c.status)
  {
    hide Reaches, Run;
    var patch := ModePatch(cached, s.c.now, mode);
    SwitchPatch(cached, s.c.status, s.c.now, mode);
    hide Apply, ModePatch, Shows, ShowsTime, RecordedTime;
    Do(from, s, SwitchMode(mode), With(s, ReadStatus(mode)));
    assert With(s, ReadStatus(mode)).pcs[|s.pcs| := PatchStatus(patch)] == With(s, PatchStatus(patch)).pcs;
    Do(from, With(s, ReadStatus(mode)), Observe(|s.pcs|, cached), With(s, PatchStatus(patch)));
    var u := if reply.Refused? then s else s.(c := s.c.(status := Apply(s.c.status, patch)));
    Newest(from, s, PatchStatus(patch), reply, u, Done);
    t := With(u, Done);
  }
}
