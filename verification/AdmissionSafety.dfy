/** What the admission stack guarantees in every reachable state, for every interleaving of calls,
    cancellations and resizes, and for every choice of the three sizes. */
module AdmissionSafety {
  import opened Runs
  import opened AdmissionStack

  ghost predicate Reachable(slots: nat, chan: nat, cap: Half, s: State) {
    Reaches(Step, Fresh(slots, chan, cap), s)
  }

  /** Reachable without resizing after construction, as in the resolver. */
  ghost predicate Served(slots: nat, chan: nat, cap: Half, s: State) {
    Reaches(BreakerStep, Fresh(slots, chan, cap), s)
  }

  predicate Waiting(s: State, g: nat) { g < |s.pcs| && s.pcs[g].AcqWait? }

  /** No token is queued or owed, and nobody is about to look at the word again. */
  ghost predicate Quiet(s: State) {
    s.tokens == 0 && Total(s.pcs, Owed) == 0 && Total(s.pcs, Retrying) == 0
  }

  /** The sizes never change, except the capacity through a resize. */
  lemma Constants(slots: nat, chan: nat, cap: Half, s: State)
    requires Reachable(slots, chan, cap, s)
    ensures s.slots == slots && s.chan == chan
  {
    var same := (u: State) => u.slots == slots && u.chan == chan;
    Invariance(Step, same, Fresh(slots, chan, cap), s);
  }

  lemma ServedIsReachable(slots: nat, chan: nat, cap: Half, s: State)
    requires Served(slots, chan, cap, s)
    ensures Reachable(slots, chan, cap, s)
    ensures Cap(s) == s.peak == cap
  {
    ReachWeaker(BreakerStep, Step, Fresh(slots, chan, cap), s);
    ghost var fixed := (u: State) => Inv(u) && Cap(u) == u.peak == cap
                               && forall g :: 0 <= g < |u.pcs| ==> !u.pcs[g].UpdLoad? && !u.pcs[g].UpdCas?;
    FreshInv(slots, chan, cap);
    forall u: State, e: Event | fixed(u) && BreakerStep(u, e).Some? ensures fixed(BreakerStep(u, e).value) {
      StepKeeps(u, e);
      KeepsCap(u, e);
    }
    Invariance(BreakerStep, fixed, Fresh(slots, chan, cap), s);
  }

  lemma KeepsCap(u: State, e: Event)
    requires BreakerStep(u, e).Some?
    requires forall g :: 0 <= g < |u.pcs| ==> !u.pcs[g].UpdLoad? && !u.pcs[g].UpdCas?
    ensures var t := BreakerStep(u, e).value;
      && Cap(t) == Cap(u) && t.peak == u.peak
      && forall g :: 0 <= g < |t.pcs| ==> !t.pcs[g].UpdLoad? && !t.pcs[g].UpdCas?
  {
    hide Pack, Hi, Lo;
    if e.Act? {
      CapMoves(u, e.g);
    }
  }

  // ---- Wakeups ---------------------------------------------------------------------------

  /** No lost wakeup: while the capacity fits the channel, the tokens queued, the tokens owed and the
      goroutines looking again are at least as many as the free slots; so when all that is quiet,
      a goroutine that still waits waits at a full semaphore. */
  lemma NoLostWakeup(slots: nat, chan: nat, cap: Half, s: State, g: nat)
    requires Reachable(slots, chan, cap, s) && Waiting(s, g) && Cap(s) <= chan
    ensures s.tokens + Total(s.pcs, Owed) + Total(s.pcs, Retrying) >= Cap(s) - InUse(s)
    ensures Quiet(s) ==> InUse(s) >= Cap(s)
  {
    AlwaysInv(slots, chan, cap, s);
    Constants(slots, chan, cap, s);
  }

  /** Some goroutine that will bring a wakeup can move: it holds a slot, owes a token, is about to
      look again, or is itself the waiting one with a token to take. */
  ghost predicate Helps(s: State, h: nat) {
    && Step(s, Act(h)).Some?
    && (s.pcs[h].AcqWait? || Holding(s.pcs[h]) + Owed(s.pcs[h]) + Retrying(s.pcs[h]) > 0)
  }

  /** No deadlock, whatever the relation of capacity and channel, as long as both are at least 1. */
  lemma NeverDeadlocked(slots: nat, chan: nat, cap: Half, s: State, g: nat) returns (h: nat)
    requires Reachable(slots, chan, cap, s) && Waiting(s, g)
    requires chan >= 1 && Cap(s) >= 1
    ensures Helps(s, h)
  {
    AlwaysInv(slots, chan, cap, s);
    Constants(slots, chan, cap, s);
    if s.tokens > 0 {
      h := g;
    } else if Total(s.pcs, Owed) > 0 {
      h := TotalPositive(s.pcs, Owed);
    } else if Total(s.pcs, Retrying) > 0 {
      h := TotalPositive(s.pcs, Retrying);
    } else {
      h := TotalPositive(s.pcs, Holding);
    }
  }

  // ---- Refinement of an atomic counting semaphore ----------------------------------------

  /** The abstract semaphore: a capacity and the goroutines inside. */
  datatype Abstract = Abstract(cap: nat, holders: set<int>)

  datatype Op = Nothing | Acquire(g: int) | Release(g: int) | SetCapacity(size: nat)

  /** Its atomic operations. Acquiring needs room. */
  predicate AtomicOp(a: Abstract, op: Op, b: Abstract) {
    match op
    case Nothing => b == a
    case Acquire(g) => g !in a.holders && |a.holders| < a.cap && b == a.(holders := a.holders + {g})
    case Release(g) => g in a.holders && b == a.(holders := a.holders - {g})
    case SetCapacity(size) => b == a.(cap := size)
  }

  function View(s: State): Abstract { Abstract(Cap(s), Heavy(s.pcs, Holding)) }

  /** Only a compare-and-swap that finds its word is visible. */
  function Visible(s: State, e: Event): Op {
    if !e.Act? || e.g >= |s.pcs| then Nothing
    else match s.pcs[e.g]
      case AcqCas(seen) => if seen == s.word then Acquire(e.g) else Nothing
      case RelCas(seen) => if seen == s.word then Release(e.g) else Nothing
      case UpdCas(size, seen) => if seen == s.word then SetCapacity(size) else Nothing
      case _ => Nothing
  }

  lemma HoldersMove(pcs: seq<Pc>, g: nat, pc: Pc)
    requires g < |pcs|
    ensures Heavy(pcs[g := pc], Holding)
            == if Holding(pc) > 0 then Heavy(pcs, Holding) + {g} else Heavy(pcs, Holding) - {g}
    ensures g in Heavy(pcs, Holding) <==> Holding(pcs[g]) > 0
  {
  }

  lemma CapMoves(s: State, g: nat)
    requires g < |s.pcs| && Atomic(s, g).Some?
    ensures Cap(Atomic(s, g).value)
            == if Visible(s, Act(g)).SetCapacity? then Visible(s, Act(g)).size else Cap(s)
  {
    match s.pcs[g]
    case AcqCas(w) => PackUnpack(Hi(w), Lo(w) + 1, 0);
    case RelCas(w) => PackUnpack(Hi(w), Lo(w) - 1, 0);
    case UpdCas(size, w) => PackUnpack(size, Lo(w), 0);
    case _ =>
  }

  /** Who holds a slot changes exactly at the visible steps. */
  lemma HoldingMoves(s: State, g: nat)
    requires g < |s.pcs| && Atomic(s, g).Some?
    requires !Atomic(s, g).value.pcs[g].Panicked?
    ensures var op, before, after := Visible(s, Act(g)), Holding(s.pcs[g]), Holding(Atomic(s, g).value.pcs[g]);
      && (op.Acquire? ==> op.g == g && before == 0 && after == 1 && InUse(s) < Cap(s))
      && (op.Release? ==> op.g == g && before == 1 && after == 0)
      && (op.Nothing? || op.SetCapacity? ==> before == after)
  {
  }

  lemma MatchesOp(s: State, op: Op, t: State, g: nat)
    requires g < |s.pcs| == |t.pcs| && t.pcs == s.pcs[g := t.pcs[g]] && InUse(s) == |Heavy(s.pcs, Holding)|
    requires Cap(t) == if op.SetCapacity? then op.size else Cap(s)
    requires op.Acquire? ==> op.g == g && Holding(s.pcs[g]) == 0 && Holding(t.pcs[g]) == 1 && InUse(s) < Cap(s)
    requires op.Release? ==> op.g == g && Holding(s.pcs[g]) == 1 && Holding(t.pcs[g]) == 0
    requires op.Nothing? || op.SetCapacity? ==> Holding(s.pcs[g]) == Holding(t.pcs[g])
    ensures AtomicOp(View(s), op, View(t))
  {
    HoldersMove(s.pcs, g, t.pcs[g]);
  }

  lemma ActRefines(s: State, g: nat)
    requires g < |s.pcs| && Atomic(s, g).Some? && InUse(s) == |Heavy(s.pcs, Holding)|
    requires !Atomic(s, g).value.pcs[g].Panicked?
    ensures AtomicOp(View(s), Visible(s, Act(g)), View(Atomic(s, g).value))
  {
    var t := Atomic(s, g).value;
    CapMoves(s, g);
    HoldingMoves(s, g);
    assert t.pcs == s.pcs[g := t.pcs[g]];
    MatchesOp(s, Visible(s, Act(g)), t, g);
  }

  lemma OtherEventsRefine(s: State, e: Event)
    requires Step(s, e).Some? && !e.Act?
    ensures View(Step(s, e).value) == View(s)
  {
    assert Heavy(Step(s, e).value.pcs, Holding) == Heavy(s.pcs, Holding);
  }

  lemma HoldersCounted(s: State)
    requires Inv(s)
    ensures InUse(s) == |Heavy(s.pcs, Holding)| <= s.peak
  {
    TotalIsCount(s.pcs, Holding);
  }

  lemma NoPanicNext(s: State, g: nat)
    requires Inv(s) && g < |s.pcs| && Atomic(s, g).Some?
    ensures !Atomic(s, g).value.pcs[g].Panicked?
  {
    ActKeeps(s, g);
    assert Sound(Atomic(s, g).value, Atomic(s, g).value.pcs[g]);
  }

  /** Every step of the packed, CAS-based semaphore is one atomic operation of the abstract one, or
      none, and the word's use count is the number of goroutines inside. */
  lemma RefinesCountingSemaphore(slots: nat, chan: nat, cap: Half, s: State, e: Event)
    requires Reachable(slots, chan, cap, s) && Step(s, e).Some?
    ensures AtomicOp(View(s), Visible(s, e), View(Step(s, e).value))
    ensures InUse(s) == |View(s).holders| <= s.peak
  {
    AlwaysInv(slots, chan, cap, s);
    HoldersCounted(s);
    hide Reaches, Run, Inv, Hi, Lo, Total, Heavy;
    if e.Act? {
      NoPanicNext(s, e.g);
      ActRefines(s, e.g);
    } else {
      OtherEventsRefine(s, e);
    }
  }

  /** The panic for an unpaired release cannot be reached. */
  lemma NeverPanics(slots: nat, chan: nat, cap: Half, s: State)
    requires Reachable(slots, chan, cap, s)
    ensures Panicked !in s.pcs
  {
    AlwaysInv(slots, chan, cap, s);
  }

  // ---- Breaker accounting ----------------------------------------------------------------

  function Thunk(pc: Pc): nat { if pc.Running? then 1 else 0 }

  /** The counter is exact up to lost decrements, never undercounts, and bounds the requests inside
      and the thunks running at once. */
  lemma BreakerAccounting(slots: nat, chan: nat, cap: Half, s: State)
    requires Served(slots, chan, cap, s)
    ensures s.inFlight == Total(s.pcs, Inside) + s.lost <= slots
    ensures Total(s.pcs, Thunk) <= Min(cap, slots)
  {
    ServedIsReachable(slots, chan, cap, s);
    AlwaysInv(slots, chan, cap, s);
    Constants(slots, chan, cap, s);
    TotalLe(s.pcs, Thunk, Holding);
    TotalLe(s.pcs, Thunk, Inside);
  }

  lemma RefusedBySize(s: State, e: Event, g: nat)
    requires Step(s, e).Some? && g < |s.pcs| && !s.pcs[g].Refused?
    ensures g < |Step(s, e).value.pcs|
    ensures Step(s, e).value.pcs[g].Refused? <==> e == Act(g) && s.pcs[g].TryLoad? && s.inFlight >= s.slots
  {
    hide Hi, Lo, Pack;
  }

  /** Of all steps there are, one refuses a request exactly when it is that request's own look at the
      counter, and the requests inside and the lost decrements fill the slots. */
  lemma RefusedWhenFull(slots: nat, chan: nat, cap: Half, s: State, e: Event, g: nat)
    requires Served(slots, chan, cap, s) && BreakerStep(s, e).Some? && g < |s.pcs| && !s.pcs[g].Refused?
    ensures g < |BreakerStep(s, e).value.pcs|
    ensures BreakerStep(s, e).value.pcs[g].Refused?
            <==> e == Act(g) && s.pcs[g].TryLoad? && Total(s.pcs, Inside) == slots - s.lost
  {
    RefusedBySize(s, e, g);
    BreakerAccounting(slots, chan, cap, s);
    ServedIsReachable(slots, chan, cap, s);
    Constants(slots, chan, cap, s);
    hide Served, Reachable, Total, Step;
  }

  /** Lost decrements never take the last slot: with nobody inside, the next request is admitted. */
  lemma NeverWedged(slots: nat, chan: nat, cap: Half, s: State)
    requires Served(slots, chan, cap, s) && slots > 0
    ensures s.lost < slots
    ensures Total(s.pcs, Inside) == 0 ==> s.inFlight < slots
  {
    ServedIsReachable(slots, chan, cap, s);
    AlwaysInv(slots, chan, cap, s);
    Constants(slots, chan, cap, s);
    TotalLe(s.pcs, InTime(slots), Inside);
  }

  predicate Returned(pc: Pc) { pc.Refused? || pc.Left? || pc.Updated? || pc.Panicked? }

  /** Whoever has returned from Maybe holds nothing: once all have, the semaphore is empty and only
      lost decrements are left in the counter. */
  lemma EveryExitGivesBack(slots: nat, chan: nat, cap: Half, s: State)
    requires Reachable(slots, chan, cap, s)
    requires forall g :: 0 <= g < |s.pcs| ==> Returned(s.pcs[g])
    ensures InUse(s) == 0 && s.inFlight == s.lost
  {
    AlwaysInv(slots, chan, cap, s);
    TotalZero(s.pcs, Holding);
    TotalZero(s.pcs, Inside);
  }
}
