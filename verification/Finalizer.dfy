/** Deleting an ElastiService: each reconcile starts three goroutines that clean up in any order, waits
    for them, drops the directory entry, and removes the finalizer if none of them failed. Any call
    may fail, also after it took effect, and then the reconcile is repeated. What is there is looked up in
    a cache of any age. */
module Finalizer {
  import opened Runs
  import P = ScaleProtocol

  /** How a worker ended: its get failed, it found nothing, its delete was answered, or its delete found
      nothing any more. */
  datatype End = GetFailed | Absent | Answered(reply: P.Reply) | Vanished

  datatype Worker = Off | Getting | Deleting | Ended(how: End)

  /** The worker ended without an error. */
  predicate Fine(w: Worker) { w == Ended(Absent) || w == Ended(Answered(P.Ok)) }

  predicate Failed(w: Worker) { w.Ended? && !Fine(w) }

  /** The worker has deleted its object, whatever it was told. */
  predicate Removed(w: Worker) { w == Ended(Answered(P.Ok)) || w == Ended(Answered(P.Lost)) }

  datatype Main = Idle | Waiting | Updating

  /** What was there when a pass began, what others have deleted since, and what the cache did not show
      although it was there. */
  datatype Pass = Pass(hadSlice: bool, hadPrivate: bool, tookSlice: bool, tookPrivate: bool,
                       missedSlice: bool, missedPrivate: bool)

  /** `slice`, `private`, `entry` and `informers`: what is still there. `smooth`: no call of the pass
      under way, or of the last one, has failed; `passes` counts reconciles that found the finalizer, and
      `pass` is about the last of them. No step depends on these three. */
  datatype State = State(finalizer: bool, slice: bool, private: bool, entry: bool, informers: bool,
                         main: Main, slicer: Worker, privater: Worker, stopper: Worker,
                         smooth: bool, passes: nat, pass: Pass)

  datatype Event =
    | Reconcile
    | SliceStep(reply: P.Reply, found: bool)      // found: what the cache shows, when it is asked
    | PrivateStep(reply: P.Reply, found: bool)
    | StopInformers
    | Join
    | Update(reply: P.Reply)
    | OthersDelete(theSlice: bool, thePrivate: bool)

  /** One call of deleteEndpointsliceToResolver or deletePrivateService: where the worker goes, and
      whether the object is still there. */
  function Clean(worker: Worker, there: bool, reply: P.Reply, found: bool): Option<(Worker, bool)> {
    match worker
    case Getting =>
      Some((if !reply.Ok? then Ended(GetFailed) else if found then Deleting else Ended(Absent), there))
    case Deleting =>
      Some(if !there then (Ended(Vanished), false) else (Ended(Answered(reply)), reply.Refused?))
    case _ => None
  }

  function Step(s: State, e: Event): Option<State> {
    match e
    case Reconcile =>
      // without the finalizer there is nothing left to do, and the object soon is gone
      if s.main.Idle? && s.finalizer
      then Some(s.(main := Waiting, slicer := Getting, privater := Getting, stopper := Getting,
                   smooth := true, passes := s.passes + 1, pass := Pass(s.slice, s.private, false, false, false, false)))
      else if s.main.Idle? then Some(s) else None
    case SliceStep(reply, found) =>
      var r := Clean(s.slicer, s.slice, reply, found);
      if s.main.Waiting? && r.Some?
      then Some(s.(slicer := r.value.0, slice := r.value.1, smooth := s.smooth && !Failed(r.value.0),
                   pass := s.pass.(missedSlice := s.pass.missedSlice || (r.value.0 == Ended(Absent) && s.slice))))
      else None
    case PrivateStep(reply, found) =>
      var r := Clean(s.privater, s.private, reply, found);
      if s.main.Waiting? && r.Some?
      then Some(s.(privater := r.value.0, private := r.value.1, smooth := s.smooth && !Failed(r.value.0),
                   pass := s.pass.(missedPrivate := s.pass.missedPrivate || (r.value.0 == Ended(Absent) && s.private))))
      else None
    case StopInformers =>
      if s.main.Waiting? && s.stopper.Getting? then Some(s.(informers := false, stopper := Ended(Absent))) else None
    case Join =>
      if s.main.Waiting? && s.slicer.Ended? && s.privater.Ended? && s.stopper.Ended?
      then Some(s.(entry := false, main := if Fine(s.slicer) && Fine(s.privater) then Updating else Idle))
      else None
    case Update(reply) =>
      if s.main.Updating?
      then Some(s.(finalizer := reply.Refused?, main := Idle, smooth := s.smooth && !reply.Refused?))
      else None
    case OthersDelete(theSlice, thePrivate) =>
      Some(s.(slice := s.slice && !theSlice, private := s.private && !thePrivate,
              pass := s.pass.(tookSlice := s.pass.tookSlice || theSlice, tookPrivate := s.pass.tookPrivate || thePrivate)))
  }

  predicate AllGone(s: State) { !s.slice && !s.private && !s.entry && !s.informers }

  /** The cache did not show the slice although it was there, and nobody else has deleted it since. */
  predicate SliceMissed(s: State) { s.pass.missedSlice && !s.pass.tookSlice }

  predicate PrivateMissed(s: State) { s.pass.missedPrivate && !s.pass.tookPrivate }

  /** What a pass has found out about the slice and the private service. */
  predicate Traced(s: State) {
    s.passes > 0 ==>
      && (s.slice <==> s.pass.hadSlice && !s.pass.tookSlice && !Removed(s.slicer))
      && (s.private <==> s.pass.hadPrivate && !s.pass.tookPrivate && !Removed(s.privater))
      && (s.pass.missedSlice ==> s.slicer == Ended(Absent) && s.pass.hadSlice)
      && (s.pass.missedPrivate ==> s.privater == Ended(Absent) && s.pass.hadPrivate)
      && (s.slicer == Ended(Absent) || s.slicer == Ended(Vanished) ==> (s.slice <==> SliceMissed(s)))
      && (s.privater == Ended(Absent) || s.privater == Ended(Vanished) ==> (s.private <==> PrivateMissed(s)))
  }

  ghost predicate Inv(s: State) {
    && Traced(s)
    && (s.main.Waiting? || s.main.Updating? || !s.finalizer ==> s.passes > 0)
    && (s.main.Waiting? || s.main.Updating? ==> s.finalizer)
    && (s.main.Waiting? && s.stopper.Ended? ==> !s.informers)
    && (s.main.Waiting? && s.smooth ==> !Failed(s.slicer) && !Failed(s.privater))
    && (s.main.Updating? || !s.finalizer ==> Fine(s.slicer) && Fine(s.privater) && !s.entry && !s.informers)
    && (s.main.Idle? && s.passes > 0 && s.smooth ==> !s.finalizer)
  }

  lemma StepKeeps(s: State, e: Event)
    requires Inv(s) && Step(s, e).Some?
    ensures Inv(Step(s, e).value)
  {
  }

  predicate Begin(s: State) { s.finalizer && s.main.Idle? && s.passes == 0 }

  lemma AlwaysInv(s0: State, s: State)
    requires Begin(s0) && Reaches(Step, s0, s)
    ensures Inv(s)
  {
    hide Reaches, Run;
    forall u: State, e: Event | Inv(u) && Step(u, e).Some? ensures Inv(Step(u, e).value) { StepKeeps(u, e); }
    Invariance(Step, Inv, s0, s);
  }

  /** Once the finalizer is removed, directory entry and informers are gone, and slice and private service
      are gone too if and only if the cache missed neither; and a pass in which no call fails removes it. */
  lemma FinalizerGoesLast(s0: State, s: State)
    requires Begin(s0) && Reaches(Step, s0, s)
    ensures !s.finalizer ==> !s.entry && !s.informers && (s.slice <==> SliceMissed(s)) && (s.private <==> PrivateMissed(s))
    ensures s.main.Idle? && s.passes > 0 && s.smooth ==> !s.finalizer
  {
    AlwaysInv(s0, s);
  }

  /** The steps of runs in which the cache always shows what is there. */
  function FreshStep(s: State, e: Event): Option<State> {
    if (e.SliceStep? && e.found != s.slice) || (e.PrivateStep? && e.found != s.private) then None else Step(s, e)
  }

  /** With a cache that is up to date, and whatever calls fail, the finalizer is removed only when all is
      gone. */
  lemma FreshCacheLeavesNothing(s0: State, s: State)
    requires Begin(s0) && Reaches(FreshStep, s0, s)
    ensures !s.finalizer ==> AllGone(s)
  {
    hide Reaches, Run, Inv, Step;
    ghost var inv := (u: State) => Inv(u) && NothingMissed(u);
    assert inv(s0) by { BeginInv(s0); }
    forall u: State, e: Event | inv(u) && FreshStep(u, e).Some? ensures inv(FreshStep(u, e).value) {
      StepKeeps(u, e);
      FreshMissesNothing(u, e);
    }
    Invariance(FreshStep, inv, s0, s);
    InvMeans(s);
  }

  predicate NothingMissed(s: State) { s.passes > 0 ==> !s.pass.missedSlice && !s.pass.missedPrivate }

  lemma FreshMissesNothing(s: State, e: Event)
    requires NothingMissed(s) && FreshStep(s, e).Some?
    ensures NothingMissed(FreshStep(s, e).value)
  {
  }

  lemma BeginInv(s: State)
    requires Begin(s)
    ensures Inv(s) && NothingMissed(s)
  {
  }

  lemma InvMeans(s: State)
    requires Inv(s)
    ensures s.main.Waiting? || s.main.Updating? ==> s.finalizer
    ensures !s.finalizer ==> s.passes > 0 && !s.entry && !s.informers && (s.slice <==> SliceMissed(s)) && (s.private <==> PrivateMissed(s))
  {
  }

  /** The steps until the next reconcile. */
  function SamePassStep(s: State, e: Event): Option<State> { if e.Reconcile? then None else Step(s, e) }

  predicate AnyFailed(s: State) { s.finalizer && !s.main.Updating? && (Failed(s.slicer) || Failed(s.privater)) }

  /** After a get or a delete that was not acknowledged, the finalizer stays until another reconcile
      begins. */
  lemma FailedCallKeepsFinalizer(s0: State, s: State, e: Event, t: State)
    requires Begin(s0) && Reaches(Step, s0, s) && Step(s, e).Some?
    requires (e.SliceStep? || e.PrivateStep?) && !e.reply.Ok?
    requires Reaches(SamePassStep, Step(s, e).value, t)
    ensures t.finalizer
  {
    AlwaysInv(s0, s);
    InvMeans(s);
    FailureShows(s, e);
    hide Reaches, Run, Inv, Step;
    forall u: State, f: Event | AnyFailed(u) && SamePassStep(u, f).Some? ensures AnyFailed(SamePassStep(u, f).value) {
      FailureStays(u, f);
    }
    Invariance(SamePassStep, AnyFailed, Step(s, e).value, t);
  }

  lemma FailureShows(s: State, e: Event)
    requires (e.SliceStep? || e.PrivateStep?) && !e.reply.Ok? && Step(s, e).Some? && s.finalizer
    ensures AnyFailed(Step(s, e).value)
  {
  }

  lemma FailureStays(s: State, e: Event)
    requires AnyFailed(s) && SamePassStep(s, e).Some?
    ensures AnyFailed(SamePassStep(s, e).value)
  {
  }

  /** A pass in which every call is acknowledged and the cache is up to date cleans up everything, whatever
      was there. */
  lemma PassCleans(from: State, s: State) returns (t: State)
    requires Reaches(Step, from, s) && s.main.Idle? && s.finalizer
    ensures Reaches(Step, from, t) && t.main.Idle? && !t.finalizer && AllGone(t)
  {
    hide Reaches, Run;
    t := Onward(from, s, Reconcile);
    t := Onward(from, t, SliceStep(P.Ok, s.slice));
    if s.slice {
      t := Onward(from, t, SliceStep(P.Ok, true));
    }
    t := Onward(from, t, PrivateStep(P.Ok, s.private));
    if s.private {
      t := Onward(from, t, PrivateStep(P.Ok, true));
    }
    t := Onward(from, t, StopInformers);
    t := Onward(from, t, Join);
    t := Onward(from, t, Update(P.Ok));
  }

  /** A stale cache is enough for the slice to outlive the finalizer: from every beginning with a slice a
      pass in which no call fails ends so, and nothing of this model deletes the slice any more. */
  lemma SliceMayOutliveFinalizer(s0: State) returns (s: State)
    requires Begin(s0) && s0.slice
    ensures Reaches(Step, s0, s) && s.main.Idle? && s.smooth && !s.finalizer && s.slice
    ensures forall e: Event :: Step(s, e).Some? && !e.OthersDelete? ==> Step(s, e).value.slice
  {
    hide Reaches, Run;
    ReachSelf(Step, s0);
    s := s0;
    s := Onward(s0, s, Reconcile);
    s := Onward(s0, s, SliceStep(P.Ok, false));
    s := Onward(s0, s, PrivateStep(P.Ok, false));
    s := Onward(s0, s, StopInformers);
    s := Onward(s0, s, Join);
    s := Onward(s0, s, Update(P.Ok));
  }

  lemma Onward(s0: State, s: State, e: Event) returns (t: State)
    requires Reaches(Step, s0, s) && Step(s, e).Some?
    ensures t == Step(s, e).value && Reaches(Step, s0, t)
  {
    ReachNext(Step, s0, s, e);
    t := Step(s, e).value;
  }

  /** Nothing is left, and no worker of a pass under way has deleted anything. */
  predicate NothingToDo(s: State) {
    AllGone(s) && (s.main.Waiting? ==> !Removed(s.slicer) && !Removed(s.privater))
  }

  /** Cleaning up again is harmless: once all is gone it stays gone, and no further pass deletes
      anything, whatever the cache shows. */
  lemma RepeatIsHarmless(s: State, t: State)
    requires AllGone(s) && s.main.Idle? && Reaches(Step, s, t)
    ensures NothingToDo(t)
  {
    hide Reaches, Run;
    Invariance(Step, NothingToDo, s, t);
  }

  /** The slice still points at the resolver, and the private service it would go on to is gone. */
  predicate Orphaned(s: State) { s.slice && !s.private }

  /** Exactly when a pass, once its workers have ended, leaves the slice behind without the private
      service: the slice was there, others left it alone, and its worker's get failed or did not show it or
      its delete was refused; and the private service was not there, or was deleted by others or by its
      worker. */
  lemma OrphanedIff(s0: State, s: State)
    requires Begin(s0) && Reaches(Step, s0, s) && s.passes > 0 && s.slicer.Ended? && s.privater.Ended?
    ensures Orphaned(s) <==>
              && s.pass.hadSlice && !s.pass.tookSlice
              && (s.slicer.how.GetFailed? || s.slicer.how == Answered(P.Refused) || s.pass.missedSlice)
              && (!s.pass.hadPrivate || s.pass.tookPrivate || Removed(s.privater))
  {
    AlwaysInv(s0, s);
    assert s.slicer.how.Answered? ==> s.slicer.how.reply.Ok? || s.slicer.how.reply.Refused? || s.slicer.how.reply.Lost?;
  }

  /** That happens from every beginning with slice and private service: the delete of the slice is refused
      and the other is not. Cleaning up does not keep what switching modes keeps. */
  lemma SliceMayOutliveService(s0: State) returns (s: State)
    requires Begin(s0) && s0.slice && s0.private
    ensures Reaches(Step, s0, s) && s.main.Idle? && Orphaned(s) && s.finalizer
  {
    hide Reaches, Run;
    ReachSelf(Step, s0);
    s := s0;
    s := Onward(s0, s, Reconcile);
    s := Onward(s0, s, SliceStep(P.Ok, true));
    s := Onward(s0, s, SliceStep(P.Refused, true));
    s := Onward(s0, s, PrivateStep(P.Ok, true));
    s := Onward(s0, s, PrivateStep(P.Ok, true));
    s := Onward(s0, s, StopInformers);
    s := Onward(s0, s, Join);
  }
}
