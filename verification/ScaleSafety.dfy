/** What holds of every run of the scaling protocol, and which overlaps it takes to break the rest. */
module ScaleSafety {
  import opened Runs
  import opened MergePatch
  import opened ScaleProtocol

  ghost predicate Inv(s: State) { TimeInv(s) && LockInv(s) && TickInv(s) }

  function GoalOf(pc: Pc): Option<Goal> {
    match pc
    case Lock(goal) => Some(goal)
    case Get(goal) => Some(goal)
    case Write(goal, _) => Some(goal)
    case _ => None
  }

  /** Where only a tick can stand, once it has not decided to scale up. */
  predicate TickOnly(pc: Pc) {
    || pc.List? || pc.Judge? || pc.Poll? || pc.CheckCooldown? || pc.Pause?
    || (GoalOf(pc).Some? && GoalOf(pc).value.Zero?)
  }

  /** Only the newest tick is under way. */
  ghost predicate TickInv(s: State) {
    && (s.ticker.Some? ==>
          s.ticker.value < |s.pcs| && !s.pcs[s.ticker.value].ReadStatus? && !s.pcs[s.ticker.value].PatchStatus?)
    && forall g :: 0 <= g < |s.pcs| && TickOnly(s.pcs[g]) ==> s.ticker == Some(g)
  }

  lemma MoveTickOnly(c: Cluster, g: nat, pc: Pc, reply: Reply, m: Moved)
    requires Move(c, g, pc, reply) == Some(m)
    ensures TickOnly(m.pc) ==> TickOnly(pc)
    ensures !m.pc.ReadStatus? && !m.pc.PatchStatus?
  {
    hide Apply, PausePatch, ResolveCooldown, RecordedTime;
  }

  lemma TickStepKeeps(s: State, e: Event)
    requires TickInv(s) && Step(s, e).Some?
    ensures TickInv(Step(s, e).value)
  {
    hide Apply, PausePatch, ResolveCooldown, RecordedTime, ModePatch, Move;
    var t := Step(s, e).value;
    if e.Act? {
      MoveTickOnly(s.c, e.g, s.pcs[e.g], e.reply, Moved(t.c, t.pcs[e.g]));
    }
    forall g | 0 <= g < |t.pcs| && TickOnly(t.pcs[g]) ensures t.ticker == Some(g) {
      assert g < |s.pcs| ==> TickOnly(s.pcs[g]);
    }
  }

  lemma MoveGrows(c: Cluster, g: nat, pc: Pc, reply: Reply, m: Moved)
    requires Move(c, g, pc, reply) == Some(m)
    ensures m.c.keda == c.keda && m.c.created == c.created && c.recorded <= m.c.recorded && c.now == m.c.now
  {
    hide Apply, PausePatch, ResolveCooldown, RecordedTime;
  }

  /** A step never changes what the service is, and time and recorded times only grow. */
  lemma StepGrows(s: State, e: Event)
    requires Step(s, e).Some?
    ensures var d := Step(s, e).value.c;
      d.keda == s.c.keda && d.created == s.c.created && s.c.recorded <= d.recorded && s.c.now <= d.now
  {
    hide Move, ModePatch;
    if e.Act? {
      MoveGrows(s.c, e.g, s.pcs[e.g], e.reply, Move(s.c, e.g, s.pcs[e.g], e.reply).value);
    }
  }

  lemma StepKeeps(s: State, e: Event)
    requires Inv(s) && Step(s, e).Some?
    ensures Inv(Step(s, e).value)
  {
    hide TimeInv, LockInv, TickInv, Step;
    TimeStepKeeps(s, e);
    LockStepKeeps(s, e);
    TickStepKeeps(s, e);
  }

  lemma AlwaysInv(s0: State, s: State)
    requires Start(s0) && Reaches(Step, s0, s)
    ensures Inv(s)
  {
    Later(s0, s);
  }

  /** Whatever happens after a state, recorded times stay recorded. */
  lemma Later(s: State, t: State)
    requires Inv(s) && Reaches(Step, s, t)
    ensures Inv(t) && t.c.keda == s.c.keda && t.c.created == s.c.created
    ensures s.c.recorded <= t.c.recorded && s.c.now <= t.c.now
  {
    ghost var inv := (u: State) => Inv(u) && u.c.keda == s.c.keda && u.c.created == s.c.created
                                   && s.c.recorded <= u.c.recorded && s.c.now <= u.c.now;
    hide Reaches, Run, Step, Inv;
    forall u: State, e: Event | inv(u) && Step(u, e).Some? ensures inv(Step(u, e).value) {
      StepKeeps(u, e);
      StepGrows(u, e);
    }
    Invariance(Step, inv, s, t);
  }

  // ---- Recorded scale-up times -----------------------------------------------------------

  /** The status shows the scale-up time recorded last, through any interleaving with mode switches
      working on statuses of any age. */
  lemma RecordedTimeNeverLost(s0: State, s: State)
    requires Start(s0) && Reaches(Step, s0, s)
    ensures RecordedTime(s.c.status) == Last(s.c.recorded)
  {
    AlwaysInv(s0, s);
  }

  // ---- Cooldown --------------------------------------------------------------------------

  /** Replicas only go down when a tick writes 0, and then the service is one cooldown old and the
      last scale-up the tick saw recorded is one cooldown ago. */
  lemma ScaleDownCoolsDown(s0: State, s: State, e: Event)
    requires Start(s0) && Reaches(Step, s0, s) && Step(s, e).Some?
    requires Step(s, e).value.c.replicas < s.c.replicas
    ensures Step(s, e).value.c.replicas == 0
    ensures e.Act? && s.pcs[e.g].Write? && s.pcs[e.g].goal.Zero?
    ensures var seen := s.pcs[e.g].goal.seen;
      Faithful(s.c, seen) && OldEnough(s.c, seen) && CooledDown(s.c, seen)
  {
    AlwaysInv(s0, s);
    FailedPauseStops(s, e);
    assert Exclusive(s.c, e.g, s.pcs[e.g]) && InTime(s.c, s.pcs[e.g]);
    hide Reaches, Run, Inv, InTime, Faithful, OldEnough, CooledDown;
  }

  /** One cooldown has passed since every scale-up time recorded before the tick listed. */
  predicate AllCooledDown(c: Cluster, seen: Listed)
    requires seen.stamps <= |c.recorded|
  {
    forall i :: 0 <= i < seen.stamps ==> c.recorded[i] + seen.cooldown <= c.now
  }

  /** The time that protects the service: the one recorded last, or its creation if that is later. */
  function Protecting(c: Cluster): int
    requires c.recorded != []
  {
    Max(c.created, c.recorded[|c.recorded| - 1])
  }

  /** Every recorded time is no later than the one that protects the service, or so old that no cooldown
      reaches from it until now. */
  predicate Covered(c: Cluster) {
    c.recorded != [] ==> forall r :: r in c.recorded ==> r <= Protecting(c) || r + LONGEST <= c.now
  }

  /** No time was recorded after a later one, except before creation. */
  predicate InOrder(c: Cluster) {
    forall i, j :: 0 <= i < j < |c.recorded| ==> c.recorded[i] <= Max(c.created, c.recorded[j])
  }

  /** A scale-up records a time that is older than the one recorded last. */
  predicate Overtaken(s: State, e: Event) {
    && e.Act? && e.g < |s.pcs| && s.pcs[e.g].PatchTime? && !e.reply.Refused?
    && s.c.recorded != [] && s.c.recorded[|s.c.recorded| - 1] > Max(s.c.created, s.pcs[e.g].stamp)
  }

  /** The one step that breaks the order of recorded times, and nothing mends it. */
  lemma OrderStepIff(s: State, e: Event)
    requires Step(s, e).Some?
    ensures var t := Step(s, e).value; InOrder(t.c) <==> InOrder(s.c) && !Overtaken(s, e)
  {
    hide Apply, PausePatch, ResolveCooldown, RecordedTime, ModePatch;
    var t, n := Step(s, e).value, |s.c.recorded|;
    if e.Act? && s.pcs[e.g].PatchTime? && !e.reply.Refused? {
      var stamp := s.pcs[e.g].stamp;
      assert t.c.recorded == s.c.recorded + [stamp];
      OneMore(s.c, t.c, stamp);
    } else {
      assert t.c.recorded == s.c.recorded && t.c.created == s.c.created;
    }
  }

  lemma OneMore(c: Cluster, d: Cluster, stamp: int)
    requires d.recorded == c.recorded + [stamp] && d.created == c.created
    ensures InOrder(d) <==> InOrder(c) && (c.recorded == [] || c.recorded[|c.recorded| - 1] <= Max(c.created, stamp))
  {
    var n := |c.recorded|;
    if InOrder(d) {
      assert forall i :: 0 <= i < n ==> d.recorded[i] == c.recorded[i];
      assert n > 0 ==> d.recorded[n - 1] <= Max(d.created, d.recorded[n]);
    }
  }

  /** In any run from the start, times end up recorded in order if and only if no step of the run
      recorded a time older than the last. */
  lemma {:induction false} OrderOfRunIff(s0: State, es: seq<Event>)
    requires Start(s0) && Run(Step, s0, es).Some?
    ensures InOrder(Run(Step, s0, es).value.c) <==> !Ever(Step, s0, es, Overtaken)
  {
    if es != [] {
      var n := |es| - 1;
      OrderOfRunIff(s0, es[..n]);
      OrderStepIff(Run(Step, s0, es[..n]).value, es[n]);
    }
  }

  /** With times recorded in order, whoever is about to write 0 respects every time recorded before its
      tick listed the service. */
  lemma InOrderCoolsDown(s0: State, s: State, g: nat)
    requires Start(s0) && Reaches(Step, s0, s) && InOrder(s.c)
    requires g < |s.pcs| && s.pcs[g].Write? && s.pcs[g].goal.Zero?
    ensures s.pcs[g].goal.seen.stamps <= |s.c.recorded| && AllCooledDown(s.c, s.pcs[g].goal.seen)
  {
    AlwaysInv(s0, s);
    assert InTime(s.c, s.pcs[g]);
  }

  // ---- Scaling up ------------------------------------------------------------------------

  predicate IsMax(m: nat, initial: nat, served: seq<nat>) {
    && initial <= m && (forall n :: n in served ==> n <= m)
    && (m == initial || m in served)
  }

  predicate GoesUp(pc: Pc) {
    match pc
    case CheckCooldown(_) => false
    case Pause(_) => false
    case Lock(goal) => goal.Up?
    case Get(goal) => goal.Up?
    case Write(goal, _) => goal.Up?
    case _ => true
  }

  lemma UpMoves(c: Cluster, g: nat, pc: Pc, reply: Reply, m: Moved, initial: nat)
    requires Move(c, g, pc, reply) == Some(m) && GoesUp(pc) && Exclusive(c, g, pc)
    requires IsMax(c.replicas, initial, c.served)
    ensures GoesUp(m.pc) && IsMax(m.c.replicas, initial, m.c.served)
  {
    hide Apply, PausePatch, ResolveCooldown, RecordedTime;
  }

  /** Without scaling down, the replicas are always the maximum of where they began and of every
      scale-up that succeeded, however the calls interleave: the lock loses no update. */
  lemma ReplicasAreTheMaximum(s0: State, s: State)
    requires Start(s0) && Reaches(UpStep, s0, s)
    ensures IsMax(s.c.replicas, s0.c.replicas, s.c.served)
  {
    hide Reaches, Run;
    ghost var inv := (u: State) => LockInv(u) && IsMax(u.c.replicas, s0.c.replicas, u.c.served)
                                   && forall h :: 0 <= h < |u.pcs| ==> GoesUp(u.pcs[h]);
    forall u: State, e: Event | inv(u) && UpStep(u, e).Some? ensures inv(UpStep(u, e).value) {
      UpStepKeeps(u, e, s0.c.replicas);
    }
    Invariance(UpStep, inv, s0, s);
  }

  lemma UpStepKeeps(u: State, e: Event, initial: nat)
    requires LockInv(u) && IsMax(u.c.replicas, initial, u.c.served)
    requires forall h :: 0 <= h < |u.pcs| ==> GoesUp(u.pcs[h])
    requires UpStep(u, e).Some?
    ensures var t := UpStep(u, e).value;
      && LockInv(t) && IsMax(t.c.replicas, initial, t.c.served)
      && forall h :: 0 <= h < |t.pcs| ==> GoesUp(t.pcs[h])
  {
    LockStepKeeps(u, e);
    hide Apply, PausePatch, ResolveCooldown, RecordedTime, ModePatch, LockInv, IsMax;
    if e.Act? {
      assert Exclusive(u.c, e.g, u.pcs[e.g]) by { Holds(u, e.g); }
      var t := Step(u, e).value;
      UpMoves(u.c, e.g, u.pcs[e.g], e.reply, Moved(t.c, t.pcs[e.g]), initial);
    }
  }

  lemma Holds(u: State, g: nat)
    requires LockInv(u) && g < |u.pcs|
    ensures Exclusive(u.c, g, u.pcs[g])
  {
  }

  // ---- KEDA ------------------------------------------------------------------------------

  /** Paused at 0 while going to zero; not paused, and with no count to pause at, while going up. */
  predicate KedaAgrees(c: Cluster, goal: Goal) {
    c.keda ==>
      && Paused in c.annotations
      && (if goal.Zero? then c.annotations[Paused] == "true"
                             && PausedReplicas in c.annotations && c.annotations[PausedReplicas] == "0"
          else c.annotations[Paused] == "false" && PausedReplicas !in c.annotations)
  }

  predicate SetFor(c: Cluster, pc: Pc) {
    match pc
    case Lock(goal) => KedaAgrees(c, goal)
    case Get(goal) => KedaAgrees(c, goal)
    case Write(goal, _) => KedaAgrees(c, goal)
    case _ => true
  }

  /** Everybody between the patch of KEDA and the write of the replicas still has KEDA set for it. */
  ghost predicate AllSet(s: State) { forall g :: 0 <= g < |s.pcs| ==> SetFor(s.c, s.pcs[g]) }

  /** A step that turns KEDA the other way. */
  predicate Contrary(s: State, e: Event, goal: Goal) {
    && s.c.keda && e.Act? && e.g < |s.pcs| && !e.reply.Refused?
    && (if goal.Zero? then s.pcs[e.g].Unpause? else s.pcs[e.g].Pause?)
  }

  /** What is left of the annotations after a pause or an unpause: only the last one counts, and all
      other annotations are as at the start. */
  predicate Toggled(before: map<Annotation, string>, after: map<Annotation, string>) {
    after == before || after == Apply(before, PausePatch(true)) || after == Apply(before, PausePatch(false))
  }

  lemma TogglesAgain(before: map<Annotation, string>, now: map<Annotation, string>, paused: bool)
    requires Toggled(before, now)
    ensures Toggled(before, Apply(now, PausePatch(paused)))
  {
    LastPatchDecides(before, PausePatch(true), PausePatch(paused));
    LastPatchDecides(before, PausePatch(false), PausePatch(paused));
  }

  lemma ToggleStep(s: State, e: Event, before: map<Annotation, string>)
    requires Step(s, e).Some? && Toggled(before, s.c.annotations)
    ensures Toggled(before, Step(s, e).value.c.annotations)
  {
    hide Apply, PausePatch, ResolveCooldown, RecordedTime, ModePatch, Toggled;
    TogglesAgain(before, s.c.annotations, true);
    TogglesAgain(before, s.c.annotations, false);
  }

  /** However pauses and unpauses interleave, the ScaledObject is never half paused. */
  lemma KedaNeverHalfPaused(s0: State, s: State)
    requires Start(s0) && Reaches(Step, s0, s)
    ensures Toggled(s0.c.annotations, s.c.annotations)
  {
    hide Reaches, Run, Step, Apply, PausePatch;
    ghost var inv := (u: State) => Toggled(s0.c.annotations, u.c.annotations);
    forall u: State, e: Event | inv(u) && Step(u, e).Some? ensures inv(Step(u, e).value) {
      ToggleStep(u, e, s0.c.annotations);
    }
    Invariance(Step, inv, s0, s);
  }

  lemma PatchSets(c: Cluster, paused: bool, goal: Goal)
    requires c.keda
    ensures KedaAgrees(c.(annotations := Apply(c.annotations, PausePatch(paused))), goal) <==> paused == goal.Zero?
  {
  }

  /** The step that takes KEDA away from under a goal, in any state. */
  lemma AgreesStepIff(s: State, e: Event, goal: Goal)
    requires KedaAgrees(s.c, goal) && Step(s, e).Some?
    ensures KedaAgrees(Step(s, e).value.c, goal) <==> !Contrary(s, e, goal)
  {
    hide Apply, PausePatch, ResolveCooldown, RecordedTime, ModePatch;
    if s.c.keda && e.Act? && e.g < |s.pcs| && !e.reply.Refused? {
      if s.pcs[e.g].Pause? {
        PatchSets(s.c, true, goal);
      } else if s.pcs[e.g].Unpause? {
        PatchSets(s.c, false, goal);
      }
    }
  }

  /** KEDA is turned the other way while another goroutine stands between its own patch and its write. */
  predicate Harmful(s: State, e: Event) {
    exists h :: 0 <= h < |s.pcs| && GoalOf(s.pcs[h]).Some? && Contrary(s, e, GoalOf(s.pcs[h]).value)
  }

  /** A goroutine that gets past its own patch has KEDA set for its goal. */
  lemma OwnPatchSets(c: Cluster, g: nat, pc: Pc, reply: Reply, m: Moved)
    requires Move(c, g, pc, reply) == Some(m) && SetFor(c, pc)
    ensures SetFor(m.c, m.pc)
  {
    hide Apply, PausePatch, ResolveCooldown, RecordedTime, ModePatch;
    if pc.Pause? && c.keda {
      PatchSets(c, true, Zero(pc.seen));
    } else if pc.Unpause? && c.keda {
      PatchSets(c, false, Up(pc.n));
    }
  }

  lemma KedaStepIff(s: State, e: Event)
    requires AllSet(s) && Step(s, e).Some?
    ensures AllSet(Step(s, e).value) <==> !Harmful(s, e)
  {
    hide Apply, PausePatch, ResolveCooldown, RecordedTime, ModePatch, KedaAgrees;
    var t := Step(s, e).value;
    if Harmful(s, e) {
      var h :| 0 <= h < |s.pcs| && GoalOf(s.pcs[h]).Some? && Contrary(s, e, GoalOf(s.pcs[h]).value);
      assert SetFor(s.c, s.pcs[h]);
      AgreesStepIff(s, e, GoalOf(s.pcs[h]).value);
      assert t.pcs[h] == s.pcs[h] && !SetFor(t.c, t.pcs[h]);
    } else {
      forall h | 0 <= h < |t.pcs| ensures SetFor(t.c, t.pcs[h]) {
        if e.Act? && h == e.g {
          assert SetFor(s.c, s.pcs[h]);
          OwnPatchSets(s.c, h, s.pcs[h], e.reply, Moved(t.c, t.pcs[h]));
        } else if h < |s.pcs| && t.pcs[h] == s.pcs[h] && GoalOf(s.pcs[h]).Some? {
          assert SetFor(s.c, s.pcs[h]);
          AgreesStepIff(s, e, GoalOf(s.pcs[h]).value);
        }
      }
    }
  }

  /** Through both entry points and whatever calls fail: in every state of a run KEDA is set for everybody
      on the way to a write, if and only if no step of the run turns it the other way while somebody
      else is. */
  lemma KedaRunIff(s0: State, es: seq<Event>)
    requires Start(s0) && Run(Step, s0, es).Some?
    ensures Always(Step, s0, es, AllSet) <==> !Ever(Step, s0, es, Harmful)
  {
    assert AllSet(s0);
    hide AllSet, Harmful, Run, Step, Always, Ever;
    forall u: State, e: Event | AllSet(u) && Step(u, e).Some? ensures AllSet(Step(u, e).value) <==> !Harmful(u, e) {
      KedaStepIff(u, e);
    }
    AlwaysIff(Step, s0, es, u => true, AllSet, Harmful);
  }

  /** Whoever is about to write loses KEDA to any step that turns it the other way, and stays at its
      write. */
  lemma ContraryBreaks(s: State, e: Event, h: nat)
    requires h < |s.pcs| && s.pcs[h].Write? && KedaAgrees(s.c, s.pcs[h].goal)
    requires Step(s, e).Some? && Contrary(s, e, s.pcs[h].goal)
    ensures var t := Step(s, e).value; t.pcs[h] == s.pcs[h] && !KedaAgrees(t.c, t.pcs[h].goal)
  {
    AgreesStepIff(s, e, s.pcs[h].goal);
  }

  /** Where operations do not overlap no step is harmful. */
  ghost predicate OneAtWork(s: State) {
    && AllSet(s) && forall g, h :: 0 <= g < h < |s.pcs| ==> s.pcs[g].Done? || s.pcs[h].Done?
  }

  lemma SerialStepKeeps(s: State, e: Event)
    requires OneAtWork(s) && SerialStep(s, e).Some?
    ensures !Harmful(s, e) && OneAtWork(SerialStep(s, e).value)
  {
    hide Move;
    assert forall h :: 0 <= h < |s.pcs| ==> s.pcs[h] in s.pcs;
    assert !Harmful(s, e);
    KedaStepIff(s, e);
    hide AllSet;
    assert Step(s, e).Some?;
    if e.Act? {
      assert !s.pcs[e.g].Done? by { DoneStays(s, e); }
    }
  }

  lemma DoneStays(s: State, e: Event)
    requires e.Act? && Step(s, e).Some?
    ensures !s.pcs[e.g].Done?
  {
  }

  lemma SerialKedaAgrees(s0: State, s: State, g: nat)
    requires Start(s0) && Reaches(SerialStep, s0, s) && g < |s.pcs| && s.pcs[g].Write?
    ensures KedaAgrees(s.c, s.pcs[g].goal)
  {
    hide Reaches, Run;
    forall u: State, e: Event | OneAtWork(u) && SerialStep(u, e).Some? ensures OneAtWork(SerialStep(u, e).value) {
      SerialStepKeeps(u, e);
    }
    Invariance(SerialStep, OneAtWork, s0, s);
    assert SetFor(s.c, s.pcs[g]);
  }

  // ---- Ticks -----------------------------------------------------------------------------

  /** KEDA is set for the scale-up of the tick under way. */
  ghost predicate TickSet(s: State) {
    forall g :: 0 <= g < |s.pcs| && s.ticker == Some(g) && GoalOf(s.pcs[g]).Some? ==>
                  GoalOf(s.pcs[g]).value.Zero? || KedaAgrees(s.c, GoalOf(s.pcs[g]).value)
  }

  lemma TickSetKeeps(s: State, e: Event)
    requires TickInv(s) && TickSet(s) && Step(s, e).Some?
    ensures TickSet(Step(s, e).value)
  {
    hide Apply, PausePatch, ResolveCooldown, RecordedTime, ModePatch, KedaAgrees;
    var t := Step(s, e).value;
    forall g | 0 <= g < |t.pcs| && t.ticker == Some(g) && GoalOf(t.pcs[g]).Some? && GoalOf(t.pcs[g]).value.Up?
      ensures KedaAgrees(t.c, GoalOf(t.pcs[g]).value)
    {
      if e.Act? && g == e.g {
        assert SetFor(s.c, s.pcs[g]);
        OwnPatchSets(s.c, g, s.pcs[g], e.reply, Moved(t.c, t.pcs[g]));
      } else {
        assert t.pcs[g] == s.pcs[g];
        AgreesStepIff(s, e, GoalOf(s.pcs[g]).value);
      }
    }
  }

  /** Only a tick pauses KEDA, and there is one tick at a time: so the scale-up of a tick always finds KEDA
      unpaused when it writes, whatever requests do. */
  lemma TickScaleUpAgrees(s0: State, s: State, g: nat)
    requires Start(s0) && Reaches(Step, s0, s)
    requires s.ticker == Some(g) && g < |s.pcs| && s.pcs[g].Write? && s.pcs[g].goal.Up?
    ensures KedaAgrees(s.c, s.pcs[g].goal)
  {
    ghost var inv := (u: State) => TickInv(u) && TickSet(u);
    assert inv(s0);
    hide Reaches, Run, Step, TickInv;
    forall u: State, e: Event | inv(u) && Step(u, e).Some? ensures inv(Step(u, e).value) {
      TickStepKeeps(u, e);
      TickSetKeeps(u, e);
    }
    Invariance(Step, inv, s0, s);
  }

  // ---- Failed calls ----------------------------------------------------------------------

  /** Replicas change only where they are written, by a call that was not refused; and a pause or an
      unpause that is not acknowledged ends its operation there. */
  lemma FailedPauseStops(s: State, e: Event)
    requires Step(s, e).Some?
    ensures Step(s, e).value.c.replicas != s.c.replicas ==> e.Act? && s.pcs[e.g].Write? && !e.reply.Refused?
    ensures e.Act? && (s.pcs[e.g].Pause? || s.pcs[e.g].Unpause?) && !e.reply.Ok?
            ==> Step(s, e).value.pcs == s.pcs[e.g := Done]
  {
    hide Apply, PausePatch, ResolveCooldown, RecordedTime, ModePatch;
  }
}
