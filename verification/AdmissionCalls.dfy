/** What becomes of one call: a request that is let in runs its thunk once unless it is cancelled, a
    resize takes effect, and both leave nothing else behind when nobody interferes. */
module AdmissionCalls {
  import opened Runs
  import opened AdmissionStack
  import opened AdmissionSafety
  import opened AdmissionLimits

  // ---- Requests --------------------------------------------------------------------------

  /** On the way out, or out. */
  predicate Leaving(pc: Pc) {
    pc.RelLoad? || pc.RelCas? || pc.RelPoke? || pc.OutLoad? || pc.OutCas? || pc.Left? || pc.Panicked?
  }

  /** Request g ends its thunk, or is cancelled. */
  function EndsOrCancels(g: nat): (State, Event) -> bool {
    (s: State, e: Event) => e == Cancel(g) || (e == Act(g) && g < |s.pcs| && s.pcs[g].Running?)
  }

  lemma LeavesOnce(s: State, e: Event, g: nat)
    requires Step(s, e).Some? && g < |Step(s, e).value.pcs|
    ensures var t := Step(s, e).value;
      && (Leaving(t.pcs[g]) ==> g < |s.pcs| && (Leaving(s.pcs[g]) || EndsOrCancels(g)(s, e)))
      && (g < |s.pcs| && Leaving(s.pcs[g]) ==> Leaving(t.pcs[g]) && !EndsOrCancels(g)(s, e))
  {
    hide Hi, Lo, Pack;
  }

  /** Whoever has left Maybe, other than refused at once, has run its thunk or been cancelled. */
  lemma {:induction false} EveryCallRuns(s0: State, es: seq<Event>, g: nat)
    requires s0.pcs == [] && Run(Step, s0, es).Some?
    requires var s := Run(Step, s0, es).value; g < |s.pcs| && Leaving(s.pcs[g])
    ensures Ever(Step, s0, es, EndsOrCancels(g))
  {
    hide Step, EndsOrCancels, Leaving;
    if es != [] {
      var n := |es| - 1;
      var before := Run(Step, s0, es[..n]).value;
      LeavesOnce(before, es[n], g);
      if !EndsOrCancels(g)(before, es[n]) {
        EveryCallRuns(s0, es[..n], g);
      }
    }
  }

  /** A call that nobody interferes with, with room for it, leaves everything as it was, but for one token
      more if the channel has room. */
  lemma CallAlone(from: State, s: State) returns (t: State)
    requires Reaches(BreakerStep, from, s) && InUse(s) < Cap(s) && s.inFlight < s.slots
    ensures Reaches(BreakerStep, from, t) && t == Deposit(s).(pcs := s.pcs + [Left])
  {
    hide Reaches, Run, Pack, Hi, Lo;
    var g := |s.pcs|;
    var n := InUse(s) + 1;
    Admit(from, s);
    UsingIs(s, n);
    UsingIs(s, n - 1);
    var a := Using(s, n).(inFlight := s.inFlight + 1, pcs := s.pcs + [Running]);
    Finish(from, a, g);
    var b := Deposit(s).(inFlight := s.inFlight + 1, pcs := s.pcs + [OutLoad]);
    assert a.pcs[g := OutLoad] == b.pcs;
    ReachNext(BreakerStep, from, b, Act(g));
    var c := b.(pcs := s.pcs + [OutCas(b.inFlight)]);
    assert b.pcs[g := OutCas(b.inFlight)] == c.pcs;
    ReachNext(BreakerStep, from, c, Act(g));
    t := Deposit(s).(pcs := s.pcs + [Left]);
    assert c.pcs[g := Left] == t.pcs;
  }

  /** A released slot brings a wakeup exactly when whoever is woken could take it: after a capacity that was
      reduced meanwhile, nobody is woken in vain. */
  lemma WakesIntoRoom(s: State, g: nat)
    requires g < |s.pcs| && s.pcs[g].RelCas? && s.pcs[g].busy == s.word
    ensures var t := Step(s, Act(g)).value;
      && InUse(t) == InUse(s) - 1 && Cap(t) == Cap(s)
      && (if InUse(t) < Cap(t) then t.pcs[g].RelPoke? else t.pcs[g].OutLoad?)
  {
    PackUnpack(Cap(s), InUse(s) - 1, 0);
  }

  // ---- Resizes ---------------------------------------------------------------------------

  /** A resize is over, or down to sending its tokens, only once it has seen the capacity it is to set or
      has set it. */
  lemma ResizeTakesEffect(s: State, e: Event, g: nat)
    requires Step(s, e).Some? && g < |s.pcs| && (s.pcs[g].UpdLoad? || s.pcs[g].UpdCas?)
    ensures var t := Step(s, e).value;
      && (t.pcs[g].UpdLoad? || t.pcs[g].UpdCas? || t.pcs[g].UpdPoke? || t.pcs[g].Updated?)
      && (t.pcs[g].UpdLoad? || t.pcs[g].UpdCas? ==> t.pcs[g].size == s.pcs[g].size)
      && (t.pcs[g].UpdPoke? || t.pcs[g].Updated? ==> Cap(t) == s.pcs[g].size && InUse(t) == InUse(s))
  {
    if e == Act(g) && s.pcs[g].UpdCas? {
      PackUnpack(s.pcs[g].size, Lo(s.pcs[g].seen), 0);
    }
  }

  /** A resize that nobody interferes with sets the capacity, keeps the use count, and adds a token for each
      unit gained as far as the channel holds them. */
  lemma ResizeAlone(from: State, s: State, size: Half) returns (t: State)
    requires Reaches(Step, from, s) && s.tokens <= s.chan
    ensures Reaches(Step, from, t) && Cap(t) == size && InUse(t) == InUse(s)
    ensures t.tokens == Min(s.chan, s.tokens + Max(0, size - Cap(s)))
    ensures t.pcs == s.pcs + [Updated] && t.inFlight == s.inFlight && t.chan == s.chan && t.slots == s.slots
  {
    hide Reaches, Run;
    var g := |s.pcs|;
    ReachNext(Step, from, s, Resize(size));
    var a := s.(pcs := s.pcs + [UpdLoad(size)]);
    ReachNext(Step, from, a, Act(g));
    if Cap(s) == size {
      t := s.(pcs := s.pcs + [Updated]);
      assert a.pcs[g := Updated] == t.pcs;
    } else {
      var b := s.(pcs := s.pcs + [UpdCas(size, s.word)]);
      assert a.pcs[g := UpdCas(size, s.word)] == b.pcs;
      ReachNext(Step, from, b, Act(g));
      PackUnpack(size, InUse(s), 0);
      var c := s.(word := Pack(size, InUse(s)), peak := Max(s.peak, size));
      var left := Max(0, size - Cap(s));
      assert b.pcs[g := Poked(left)] == s.pcs + [Poked(left)];
      t := SendsAll(from, c, left);
    }
  }

  lemma {:induction false} SendsAll(from: State, s: State, left: nat) returns (t: State)
    requires Reaches(Step, from, s.(pcs := s.pcs + [Poked(left)])) && s.tokens <= s.chan
    ensures Reaches(Step, from, t)
    ensures t == s.(tokens := Min(s.chan, s.tokens + left), pcs := s.pcs + [Updated])
    decreases left
  {
    hide Reaches, Run;
    if left == 0 {
      t := s.(pcs := s.pcs + [Updated]);
    } else {
      var g := |s.pcs|;
      var a := s.(pcs := s.pcs + [UpdPoke(left)]);
      ReachNext(Step, from, a, Act(g));
      assert a.pcs[g := Poked(left - 1)] == s.pcs + [Poked(left - 1)];
      t := SendsAll(from, Deposit(s), left - 1);
    }
  }
}
