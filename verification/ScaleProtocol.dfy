/** Scaling one service, as a step system: requests forwarded by the resolver and mode switches each run
    in their own goroutine, polling ticks run one after the other, every call to the API server is one
    step, and any call may fail, also after it took effect. */
module ScaleProtocol {
  import opened Runs
  import opened MergePatch

  const SECOND: int := 1_000_000_000

  /** Members of a status, and annotations of a KEDA ScaledObject: the ones used here and any other. */
  datatype StatusKey = LastScaledUpTime | LastReconciledTime | Mode | OtherStatus(name: string)
  datatype Annotation = Paused | PausedReplicas | OtherAnnotation(name: string)

  type Pos = n: int | 0 < n witness 1

  /** The cooldown a spec may ask for is at most seven days. */
  type Seconds = n: nat | n <= 604_800

  const LONGEST: int := 604_800 * SECOND

  type Cooldown = d: nat | d <= LONGEST

  datatype Json = Time(at: int) | Text(text: string)

  /** What the API server answers. Lost: the call took effect but its caller gets an error. */
  datatype Reply = Ok | Refused | Lost

  /** What a tick keeps of a listed service: the recorded time, the resolved cooldown, and how many
      times had been recorded by then. */
  datatype Listed = Listed(lastUp: Option<int>, cooldown: Cooldown, stamps: nat)

  datatype Goal = Up(n: Pos) | Zero(seen: Listed)

  datatype Direction = ScaleDown | ScaleUp(n: Pos) | NoScale

  datatype Pc =
    | Stamp(n: Pos) | PatchTime(n: Pos, stamp: int) | Unpause(n: Pos)
    | List | Judge(seen: Listed) | Poll(seen: Listed) | CheckCooldown(seen: Listed) | Pause(seen: Listed)
    | Lock(goal: Goal) | Get(goal: Goal) | Write(goal: Goal, found: nat)
    | ReadStatus(mode: string) | PatchStatus(patch: Patch<StatusKey, Json>)
    | Done

  /** The service in the cluster, with the per-service lock of the scale handler. `recorded` lists the
      times written to the status, `served` the replica counts of the scale-ups that succeeded; no
      step depends on either. */
  datatype Cluster = Cluster(now: int, created: int, cooldown: Seconds, keda: bool, replicas: nat,
                             annotations: map<Annotation, string>, status: map<StatusKey, Json>,
                             lock: Option<nat>, recorded: seq<int>, served: seq<nat>)

  /** `ticker` is the goroutine of the newest tick. */
  datatype State = State(c: Cluster, pcs: seq<Pc>, ticker: Option<nat>)

  datatype Moved = Moved(c: Cluster, pc: Pc)

  datatype Event =
    | Pass(d: nat)
    | EditCooldown(seconds: Seconds)
    | Request(n: Pos)
    | Tick
    | SwitchMode(mode: string)
    | Act(g: nat, reply: Reply)
    | Observe(g: nat, cached: map<StatusKey, Json>)  // g reads the status, however old its cache is
    | Decide(g: nat, direction: Direction)        // the triggers of g's tick have been polled

  /** The cooldown in the spec, in nanoseconds; without one, fifteen minutes. */
  function ResolveCooldown(seconds: Seconds): (d: Cooldown)
    ensures d >= SECOND && (seconds >= 1 ==> d == seconds * SECOND) && (seconds == 0 ==> d == 15 * 60 * SECOND)
  {
    if seconds * SECOND == 0 then 900 * SECOND else seconds * SECOND
  }

  function Wanted(goal: Goal): nat { if goal.Up? then goal.n else 0 }

  /** A patch that pauses sets both annotations; one that unpauses removes the second. */
  function PausePatch(paused: bool): Patch<Annotation, string> {
    map[Paused := Some(if paused then "true" else "false"),
        PausedReplicas := if paused then Some("0") else None]
  }

  function RecordedTime(status: map<StatusKey, Json>): Option<int> {
    if LastScaledUpTime in status && status[LastScaledUpTime].Time? then Some(status[LastScaledUpTime].at) else None
  }

  /** The status patch of a mode switch, made from the status as read. */
  function ModePatch(read: map<StatusKey, Json>, now: int, mode: string): Patch<StatusKey, Json> {
    Diff(read, read[LastReconciledTime := Time(now)][Mode := Text(mode)])
  }

  function Fulfil(c: Cluster, goal: Goal): Cluster {
    if goal.Up? then c.(served := c.served + [goal.n]) else c
  }

  function Unlock(c: Cluster): Moved { Moved(c.(lock := None), Done) }

  /** The next step of goroutine g at pc. None: it has ended, waits for the lock, or its step is
      another event. */
  function Move(c: Cluster, g: nat, pc: Pc, reply: Reply): Option<Moved> {
    match pc
    case Stamp(n) => Some(Moved(c, PatchTime(n, c.now)))
    case PatchTime(n, stamp) =>
      // a failure here is only logged
      var d := if reply.Refused? then c
               else c.(status := Apply(c.status, map[LastScaledUpTime := Some(Time(stamp))]),
                       recorded := c.recorded + [stamp]);
      Some(Moved(d, if c.keda then Unpause(n) else Lock(Up(n))))
    case Unpause(n) =>
      var d := if reply.Refused? then c else c.(annotations := Apply(c.annotations, PausePatch(false)));
      Some(Moved(d, if reply.Ok? then Lock(Up(n)) else Done))
    case List =>
      var seen := Listed(RecordedTime(c.status), ResolveCooldown(c.cooldown), |c.recorded|);
      Some(Moved(c, if reply.Ok? then Judge(seen) else Done))
    case Judge(seen) =>
      Some(Moved(c, if c.created + seen.cooldown > c.now then Done else Poll(seen)))
    case CheckCooldown(seen) =>
      Some(Moved(c, if seen.lastUp.Some? && c.now - seen.lastUp.value < seen.cooldown then Done
                    else if c.keda then Pause(seen) else Lock(Zero(seen))))
    case Pause(seen) =>
      var d := if reply.Refused? then c else c.(annotations := Apply(c.annotations, PausePatch(true)));
      Some(Moved(d, if reply.Ok? then Lock(Zero(seen)) else Done))
    case Lock(goal) =>
      if c.lock.None? then Some(Moved(c.(lock := Some(g)), Get(goal))) else None
    case Get(goal) =>
      Some(if !reply.Ok? then Unlock(c)
           else if Scaled(c.replicas, Wanted(goal)) then Unlock(Fulfil(c, goal))
           else Moved(c, Write(goal, c.replicas)))
    case Write(goal, _) =>
      Some(if reply.Refused? then Unlock(c) else Unlock(Fulfil(c, goal).(replicas := Wanted(goal))))
    case PatchStatus(patch) =>
      Some(Moved(if reply.Refused? then c else c.(status := Apply(c.status, patch)), Done))
    case Poll(_) | ReadStatus(_) | Done => None
  }

  /** ScaleDeployment and ScaleArgoRollout leave a target alone that has the wanted replicas, or more
      when scaling up. */
  predicate Scaled(current: nat, want: nat) { current == want || (want > 0 && current > want) }

  /** The polling loop comes back to its ticker. */
  predicate TickOver(s: State) {
    s.ticker.Some? ==> s.ticker.value < |s.pcs| && s.pcs[s.ticker.value].Done?
  }

  function Step(s: State, e: Event): Option<State> {
    match e
    case Pass(d) => Some(s.(c := s.c.(now := s.c.now + d)))
    case EditCooldown(seconds) => Some(s.(c := s.c.(cooldown := seconds)))
    case Request(n) => Some(s.(pcs := s.pcs + [Stamp(n)]))
    case Tick => if TickOver(s) then Some(s.(pcs := s.pcs + [List], ticker := Some(|s.pcs|))) else None
    case SwitchMode(mode) => Some(s.(pcs := s.pcs + [ReadStatus(mode)]))
    case Act(g, reply) =>
      if g >= |s.pcs| then None
      else
        var m := Move(s.c, g, s.pcs[g], reply);
        if m.None? then None else Some(s.(c := m.value.c, pcs := s.pcs[g := m.value.pc]))
    case Observe(g, cached) =>
      if g < |s.pcs| && s.pcs[g].ReadStatus?
      then Some(s.(pcs := s.pcs[g := PatchStatus(ModePatch(cached, s.c.now, s.pcs[g].mode))])) else None
    case Decide(g, direction) =>
      if g < |s.pcs| && s.pcs[g].Poll?
      then Some(s.(pcs := s.pcs[g := match direction
                                     case ScaleDown => CheckCooldown(s.pcs[g].seen)
                                     case ScaleUp(n) => Stamp(n)
                                     case NoScale => Done]))
      else None
  }

  /** The steps of runs in which no tick decides to scale down. */
  function UpStep(s: State, e: Event): Option<State> {
    if e.Decide? && e.direction.ScaleDown? then None else Step(s, e)
  }

  /** The steps of runs in which no two operations overlap. */
  function SerialStep(s: State, e: Event): Option<State> {
    if (e.Request? || e.Tick? || e.SwitchMode?) && exists pc :: pc in s.pcs && !pc.Done? then None else Step(s, e)
  }

  /** Nobody is at work yet. The status may show a scale-up time already, as after a restart of the
      operator. */
  ghost predicate Start(s: State) {
    s.pcs == [] && s.ticker == None && s.c.served == [] && s.c.lock == None && |s.c.recorded| <= 1 && Shown(s.c)
  }

  // ---- Invariants ------------------------------------------------------------------------

  function Last(stamps: seq<int>): Option<int> { if stamps == [] then None else Some(stamps[|stamps| - 1]) }

  /** A snapshot shows the last time recorded when it was taken. */
  predicate Faithful(c: Cluster, seen: Listed) {
    seen.stamps <= |c.recorded| && seen.lastUp == Last(c.recorded[..seen.stamps])
  }

  predicate OldEnough(c: Cluster, seen: Listed) { c.created + seen.cooldown <= c.now }

  predicate CooledDown(c: Cluster, seen: Listed) {
    seen.lastUp.Some? ==> seen.lastUp.value + seen.cooldown <= c.now
  }

  predicate InTime(c: Cluster, pc: Pc) {
    match pc
    case PatchTime(_, stamp) => stamp <= c.now
    case PatchStatus(patch) => LastScaledUpTime !in patch
    case Judge(seen) => Faithful(c, seen)
    case Poll(seen) => Faithful(c, seen) && OldEnough(c, seen)
    case CheckCooldown(seen) => Faithful(c, seen) && OldEnough(c, seen)
    case Pause(seen) => Faithful(c, seen) && OldEnough(c, seen) && CooledDown(c, seen)
    case Lock(goal) => GoalInTime(c, goal)
    case Get(goal) => GoalInTime(c, goal)
    case Write(goal, _) => GoalInTime(c, goal)
    case _ => true
  }

  predicate GoalInTime(c: Cluster, goal: Goal) {
    goal.Zero? ==> Faithful(c, goal.seen) && OldEnough(c, goal.seen) && CooledDown(c, goal.seen)
  }

  /** The status always shows the time recorded last, whoever else has patched it. */
  predicate Shown(c: Cluster) {
    && RecordedTime(c.status) == Last(c.recorded)
    && (LastScaledUpTime in c.status ==> c.status[LastScaledUpTime].Time?)
    && (forall t :: t in c.recorded ==> t <= c.now)
  }

  ghost predicate TimeInv(s: State) {
    Shown(s.c) && forall h :: 0 <= h < |s.pcs| ==> InTime(s.c, s.pcs[h])
  }

  predicate Locked(pc: Pc) { pc.Get? || pc.Write? }

  /** A goroutine between reading and writing the replicas holds the lock, and only it; so what it
      read is still there. */
  predicate Exclusive(c: Cluster, h: nat, pc: Pc) {
    && (Locked(pc) <==> c.lock == Some(h))
    && (pc.Write? ==> c.replicas == pc.found && !Scaled(c.replicas, Wanted(pc.goal)))
  }

  ghost predicate LockInv(s: State) {
    && (forall h :: 0 <= h < |s.pcs| ==> Exclusive(s.c, h, s.pcs[h]))
    && (s.c.lock.Some? ==> s.c.lock.value < |s.pcs|)
  }

  /** What a move of goroutine g does to the lock and the replicas it does as their holder, or on a
      free lock. */
  lemma MoveExclusive(c: Cluster, g: nat, pc: Pc, reply: Reply, m: Moved)
    requires Move(c, g, pc, reply) == Some(m) && Exclusive(c, g, pc)
    ensures Exclusive(m.c, g, m.pc)
    ensures m.c.lock == c.lock || m.c.lock == None || m.c.lock == Some(g)
    ensures c.lock == Some(g) || ((m.c.lock == c.lock || c.lock == None) && m.c.replicas == c.replicas)
  {
    hide Apply, PausePatch, ResolveCooldown, RecordedTime;
  }

  lemma LockStepKeeps(s: State, e: Event)
    requires LockInv(s) && Step(s, e).Some?
    ensures LockInv(Step(s, e).value)
  {
    hide Apply, PausePatch, ResolveCooldown, RecordedTime, ModePatch;
    var t := Step(s, e).value;
    if e.Act? {
      assert Exclusive(s.c, e.g, s.pcs[e.g]);
      MoveExclusive(s.c, e.g, s.pcs[e.g], e.reply, Moved(t.c, t.pcs[e.g]));
    }
    forall h | 0 <= h < |t.pcs| ensures Exclusive(t.c, h, t.pcs[h]) {
      assert h < |s.pcs| ==> Exclusive(s.c, h, s.pcs[h]);
    }
  }

  /** A snapshot stays faithful as more times are recorded and time goes on. */
  lemma InTimeLater(c: Cluster, d: Cluster, pc: Pc)
    requires InTime(c, pc) && c.now <= d.now && c.created == d.created && c.recorded <= d.recorded
    ensures InTime(d, pc)
  {
    if pc.Judge? || pc.Poll? || pc.CheckCooldown? || pc.Pause? {
      assert d.recorded[..pc.seen.stamps] == c.recorded[..pc.seen.stamps];
    } else if (pc.Lock? || pc.Get? || pc.Write?) && pc.goal.Zero? {
      assert d.recorded[..pc.goal.seen.stamps] == c.recorded[..pc.goal.seen.stamps];
    }
  }

  /** The goroutine that moves arrives in time as well. */
  lemma MoveInTime(c: Cluster, g: nat, pc: Pc, reply: Reply, m: Moved)
    requires Shown(c) && InTime(c, pc) && Move(c, g, pc, reply) == Some(m)
    ensures InTime(c, m.pc)
  {
    hide Apply, PausePatch, ResolveCooldown, RecordedTime, Last;
    assert c.recorded[..|c.recorded|] == c.recorded;
  }

  lemma MoveShown(c: Cluster, g: nat, pc: Pc, reply: Reply, m: Moved)
    requires Shown(c) && InTime(c, pc) && Move(c, g, pc, reply) == Some(m)
    ensures Shown(m.c)
    ensures m.c.now == c.now && m.c.created == c.created && c.recorded <= m.c.recorded
  {
    hide Apply, PausePatch, ResolveCooldown, RecordedTime, Faithful;
    match pc
    case PatchTime(_, stamp) => RecordsTime(c.status, stamp);
    case PatchStatus(patch) => KeepsTime(c.status, patch);
    case _ =>
  }

  lemma RecordsTime(status: map<StatusKey, Json>, stamp: int)
    ensures var after := Apply(status, map[LastScaledUpTime := Some(Time(stamp))]);
      RecordedTime(after) == Some(stamp) && LastScaledUpTime in after && after[LastScaledUpTime].Time?
  {
  }

  lemma KeepsTime(status: map<StatusKey, Json>, patch: Patch<StatusKey, Json>)
    requires LastScaledUpTime !in patch
    ensures RecordedTime(Apply(status, patch)) == RecordedTime(status)
    ensures LastScaledUpTime in Apply(status, patch) <==> LastScaledUpTime in status
    ensures LastScaledUpTime in status ==> Apply(status, patch)[LastScaledUpTime] == status[LastScaledUpTime]
  {
    OthersStay(status, patch, LastScaledUpTime);
  }

  predicate Shows(status: map<StatusKey, Json>, mode: string) { Mode in status && status[Mode] == Text(mode) }

  /** The status patch of a mode switch, made from a status as it was read and landing on a newer one,
      touches nothing but the mode and the time of reconciling. It fails to set the mode exactly when
      the old status showed that mode already and the newer one does not. */
  lemma ModePatchMeans(read: map<StatusKey, Json>, newer: map<StatusKey, Json>, now: int, mode: string, k: StatusKey)
    requires k != Mode && k != LastReconciledTime
    ensures k !in ModePatch(read, now, mode)
    ensures var after := Apply(newer, ModePatch(read, now, mode));
      && (k in after <==> k in newer) && (k in after ==> after[k] == newer[k])
      && (Shows(after, mode) <==> !Shows(read, mode) || Shows(newer, mode))
    ensures Apply(read, ModePatch(read, now, mode)) == read[LastReconciledTime := Time(now)][Mode := Text(mode)]
  {
    DiffApplies(read, read[LastReconciledTime := Time(now)][Mode := Text(mode)], newer, k);
  }

  lemma TimeStepKeeps(s: State, e: Event)
    requires TimeInv(s) && Step(s, e).Some?
    ensures TimeInv(Step(s, e).value)
  {
    hide Apply, PausePatch, ResolveCooldown, RecordedTime, ModePatch;
    var t := Step(s, e).value;
    match e {
      case Act(g, reply) =>
        assert InTime(s.c, s.pcs[g]);
        MoveInTime(s.c, g, s.pcs[g], reply, Moved(t.c, t.pcs[g]));
        MoveShown(s.c, g, s.pcs[g], reply, Moved(t.c, t.pcs[g]));
      case Observe(g, cached) => ModePatchMeans(cached, s.c.status, s.c.now, s.pcs[g].mode, LastScaledUpTime);
      case Decide(g, _) => assert InTime(s.c, s.pcs[g]);
      case _ =>
    }
    forall h | 0 <= h < |t.pcs| ensures InTime(t.c, t.pcs[h]) {
      assert InTime(s.c, t.pcs[h]) by {
        assert h < |s.pcs| ==> InTime(s.c, s.pcs[h]);
      }
      InTimeLater(s.c, t.c, t.pcs[h]);
    }
  }
}
