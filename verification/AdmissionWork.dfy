/** Work conservation where there are few slots: if no more than capacity + channel requests fit into
    the breaker, a token is dropped only when the channel holds one for everybody at the select. */
module AdmissionWork {
  import opened Runs
  import opened AdmissionStack
  import opened AdmissionSafety

  function AtSelect(pc: Pc): nat { if pc.AcqWait? then 1 else 0 }

  /** The goroutines at the select. */
  function Waiters(s: State): nat { Total(s.pcs, AtSelect) }

  /** At most slots - capacity goroutines are at the select. As long as wakeups do not cover all free
      slots, every one of those has a token in the channel. */
  predicate WorkInv(s: State, c: Counts, waiting: nat) {
    && waiting <= Max(0, s.slots - Cap(s))
    && (s.tokens + c.owed + c.retrying + InUse(s) >= Cap(s) || waiting <= s.tokens)
  }

  /** No resize has started, and there are few slots. */
  predicate Small(s: State) {
    && Cap(s) == s.peak
    && s.slots <= Cap(s) + s.chan
    && forall g :: 0 <= g < |s.pcs| ==> !s.pcs[g].UpdLoad? && !s.pcs[g].UpdCas?
  }

  ghost predicate Conserving(s: State) { Inv(s) && Small(s) && WorkInv(s, Tally(s), Waiters(s)) }

  /** Holders, goroutines looking again and goroutines at the select are different goroutines inside. */
  lemma {:induction false} PartsInside(pcs: seq<Pc>)
    ensures Total(pcs, AtSelect) + Total(pcs, Holding) + Total(pcs, Retrying) <= Total(pcs, Inside)
  {
    if pcs != [] {
      PartsInside(pcs[..|pcs| - 1]);
    }
  }

  /** What a goroutine that takes a step needs to know about the others. */
  ghost predicate Counted(s: State, c: Counts, waiting: nat, pc: Pc) {
    && SemaphoreInv(s, c) && Fits(Weigh(pc, s.slots), c)
    && Cap(s) == s.peak && s.slots <= Cap(s) + s.chan && c.inside <= s.slots
    && WorkInv(s, c, waiting) && waiting + c.holding + c.retrying <= c.inside
    && AtSelect(pc) <= waiting
  }

  ghost predicate KeepsWork(s: State, t: State, g: nat, c: Counts, waiting: nat)
    requires g < |s.pcs| == |t.pcs| && AtSelect(s.pcs[g]) <= waiting
  {
    WorkInv(t, Moves(c, Weigh(s.pcs[g], s.slots), Weigh(t.pcs[g], s.slots)),
            waiting - AtSelect(s.pcs[g]) + AtSelect(t.pcs[g]))
  }

  lemma CasKeepsWork(s: State, g: nat, c: Counts, waiting: nat)
    requires g < |s.pcs| && (s.pcs[g].AcqCas? || s.pcs[g].RelCas?) && Counted(s, c, waiting, s.pcs[g])
    ensures KeepsWork(s, Atomic(s, g).value, g, c, waiting)
  {
    hide Pack, Hi, Lo;
    var pc, t := s.pcs[g], Atomic(s, g).value;
    if s.word == (if pc.AcqCas? then pc.room else pc.busy) {
      var n := if pc.AcqCas? then InUse(s) + 1 else InUse(s) - 1;
      PackUnpack(Cap(s), n, 0);
      assert InUse(t) == n && Cap(t) == Cap(s);
    }
  }

  lemma ActKeepsWork(s: State, g: nat, c: Counts, waiting: nat)
    requires g < |s.pcs| && Atomic(s, g).Some? && Counted(s, c, waiting, s.pcs[g])
    requires !s.pcs[g].UpdLoad? && !s.pcs[g].UpdCas?
    ensures KeepsWork(s, Atomic(s, g).value, g, c, waiting)
  {
    hide Pack, Hi, Lo;
    if s.pcs[g].AcqCas? || s.pcs[g].RelCas? {
      CasKeepsWork(s, g, c, waiting);
    }
  }

  lemma ActConserves(s: State, g: nat)
    requires Conserving(s) && g < |s.pcs| && Atomic(s, g).Some?
    ensures var t := Atomic(s, g).value; WorkInv(t, Tally(t), Waiters(t))
  {
    var t := Atomic(s, g).value;
    var pc := t.pcs[g];
    Moved(s, g, pc);
    TotalUpdate(s.pcs, AtSelect, g, pc);
    PartsInside(s.pcs);
    ActKeepsWork(s, g, Tally(s), Waiters(s));
    assert t.pcs == At(s, g, pc).pcs;
  }

  lemma HandoffConserves(s: State, g: nat, to: nat)
    requires Conserving(s) && Step(s, Handoff(g, to)).Some?
    ensures var t := Step(s, Handoff(g, to)).value; WorkInv(t, Tally(t), Waiters(t))
  {
    var pc := if s.pcs[g].RelPoke? then OutLoad else Poked(s.pcs[g].left - 1);
    HandoffTally(s, g, to);
    TotalUpdate(s.pcs, AtSelect, g, pc);
    TotalUpdate(s.pcs[g := pc], AtSelect, to, AcqLoad);
    hide Tally, Hi, Lo;
  }

  lemma CancelConserves(s: State, g: nat)
    requires Conserving(s) && Step(s, Cancel(g)).Some?
    ensures var t := Step(s, Cancel(g)).value; WorkInv(t, Tally(t), Waiters(t))
  {
    Moved(s, g, OutLoad);
    TotalUpdate(s.pcs, AtSelect, g, OutLoad);
    hide Tally, Hi, Lo;
  }

  lemma CallConserves(s: State)
    requires Conserving(s)
    ensures var t := Step(s, Call).value; WorkInv(t, Tally(t), Waiters(t))
  {
    TotalAppend(s.pcs, Retrying, TryLoad);
    TotalAppend(s.pcs, Owed, TryLoad);
    TotalAppend(s.pcs, AtSelect, TryLoad);
  }

  lemma StepConserves(s: State, e: Event)
    requires Conserving(s) && BreakerStep(s, e).Some?
    ensures Conserving(BreakerStep(s, e).value)
  {
    hide Inv, WorkInv, Tally, Waiters, Hi, Lo;
    StepKeeps(s, e);
    KeepsCap(s, e);
    match e
    case Call => CallConserves(s);
    case Resize(size) =>
    case Act(g) => ActConserves(s, g);
    case Cancel(g) => CancelConserves(s, g);
    case Handoff(g, to) => HandoffConserves(s, g, to);
  }

  /** With at most capacity + channel slots, whoever still waits when all is quiet waits at a full
      semaphore, although the channel may be smaller than the capacity. */
  lemma FewSlotsConserve(slots: nat, chan: nat, cap: Half, s: State, g: nat)
    requires Served(slots, chan, cap, s) && slots <= cap + chan
    requires Waiting(s, g) && Quiet(s)
    ensures InUse(s) == cap
  {
    FreshInv(slots, chan, cap);
    forall u: State, e: Event | Conserving(u) && BreakerStep(u, e).Some? ensures Conserving(BreakerStep(u, e).value) {
      StepConserves(u, e);
    }
    Invariance(BreakerStep, Conserving, Fresh(slots, chan, cap), s);
    ServedIsReachable(slots, chan, cap, s);
    TotalUpdate(s.pcs, AtSelect, g, s.pcs[g]);
  }
}
