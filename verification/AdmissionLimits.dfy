/** Where the guarantees of the admission stack end, shown by runs built for every choice of sizes:
    a free slot beside a waiting request once slots exceed capacity and channel together, and a breaker
    worn down to one slot by lost decrements. */
module AdmissionLimits {
  import opened Runs
  import opened AdmissionStack
  import opened AdmissionSafety
  import opened AdmissionWork

  function Repeat(pc: Pc, n: nat): seq<Pc> { seq(n, _ => pc) }

  /** `s` with `n` slots in use. */
  function Using(s: State, n: Half): State { s.(word := Pack(Cap(s), n)) }

  lemma UsingIs(s: State, n: Half)
    ensures Cap(Using(s, n)) == Cap(s) && InUse(Using(s, n)) == n
    ensures Using(s, InUse(s)) == s
  {
    PackUnpack(Cap(s), n, s.word);
  }

  // ---- One step of a goroutine at a given place -------------------------------------------

  lemma AtTwice(s: State, g: nat, x: Pc, y: Pc)
    requires g < |s.pcs|
    ensures At(At(s, g, x), g, y) == At(s, g, y)
  {
    assert s.pcs[g := x][g := y] == s.pcs[g := y];
  }

  lemma TryReads(from: State, s: State, g: nat)
    requires g < |s.pcs| && s.inFlight < s.slots && Reaches(BreakerStep, from, At(s, g, TryLoad))
    ensures Reaches(BreakerStep, from, At(s, g, TryCas(s.inFlight)))
  {
    AtTwice(s, g, TryLoad, TryCas(s.inFlight));
    ReachNext(BreakerStep, from, At(s, g, TryLoad), Act(g));
  }

  lemma TryAdds(from: State, s: State, g: nat)
    requires g < |s.pcs| && Reaches(BreakerStep, from, At(s, g, TryCas(s.inFlight)))
    ensures Reaches(BreakerStep, from, At(s.(inFlight := s.inFlight + 1), g, AcqLoad))
  {
    AtTwice(s, g, TryCas(s.inFlight), AcqLoad);
    ReachNext(BreakerStep, from, At(s, g, TryCas(s.inFlight)), Act(g));
  }

  lemma SeesRoom(from: State, s: State, g: nat)
    requires g < |s.pcs| && InUse(s) < Cap(s) && Reaches(BreakerStep, from, At(s, g, AcqLoad))
    ensures Reaches(BreakerStep, from, At(s, g, AcqCas(s.word)))
  {
    AtTwice(s, g, AcqLoad, AcqCas(s.word));
    ReachNext(BreakerStep, from, At(s, g, AcqLoad), Act(g));
  }

  lemma SeesFull(from: State, s: State, g: nat)
    requires g < |s.pcs| && InUse(s) >= Cap(s) && Reaches(BreakerStep, from, At(s, g, AcqLoad))
    ensures Reaches(BreakerStep, from, At(s, g, AcqWait))
  {
    AtTwice(s, g, AcqLoad, AcqWait);
    ReachNext(BreakerStep, from, At(s, g, AcqLoad), Act(g));
  }

  lemma TakesRoom(from: State, s: State, g: nat)
    requires g < |s.pcs| && InUse(s) < Cap(s) && Reaches(BreakerStep, from, At(s, g, AcqCas(s.word)))
    ensures Reaches(BreakerStep, from, At(Using(s, InUse(s) + 1), g, Running))
  {
    AtTwice(s, g, AcqCas(s.word), Running);
    ReachNext(BreakerStep, from, At(s, g, AcqCas(s.word)), Act(g));
  }

  lemma TakesToken(from: State, s: State, g: nat)
    requires g < |s.pcs| && s.tokens > 0 && Reaches(BreakerStep, from, At(s, g, AcqWait))
    ensures Reaches(BreakerStep, from, At(s.(tokens := s.tokens - 1), g, AcqLoad))
  {
    AtTwice(s, g, AcqWait, AcqLoad);
    ReachNext(BreakerStep, from, At(s, g, AcqWait), Act(g));
  }

  lemma EndsThunk(from: State, s: State, g: nat)
    requires g < |s.pcs| && Reaches(BreakerStep, from, At(s, g, Running))
    ensures Reaches(BreakerStep, from, At(s, g, RelLoad))
  {
    AtTwice(s, g, Running, RelLoad);
    ReachNext(BreakerStep, from, At(s, g, Running), Act(g));
  }

  lemma SeesBusy(from: State, s: State, g: nat)
    requires g < |s.pcs| && InUse(s) > 0 && Reaches(BreakerStep, from, At(s, g, RelLoad))
    ensures Reaches(BreakerStep, from, At(s, g, RelCas(s.word)))
  {
    AtTwice(s, g, RelLoad, RelCas(s.word));
    ReachNext(BreakerStep, from, At(s, g, RelLoad), Act(g));
  }

  lemma GivesBack(from: State, s: State, g: nat)
    requires g < |s.pcs| && 0 < InUse(s) <= Cap(s) && Reaches(BreakerStep, from, At(s, g, RelCas(s.word)))
    ensures Reaches(BreakerStep, from, At(Using(s, InUse(s) - 1), g, RelPoke))
  {
    AtTwice(s, g, RelCas(s.word), RelPoke);
    ReachNext(BreakerStep, from, At(s, g, RelCas(s.word)), Act(g));
  }

  lemma Sends(from: State, s: State, g: nat)
    requires g < |s.pcs| && Reaches(BreakerStep, from, At(s, g, RelPoke))
    ensures Reaches(BreakerStep, from, At(Deposit(s), g, OutLoad))
  {
    AtTwice(s, g, RelPoke, OutLoad);
    ReachNext(BreakerStep, from, At(s, g, RelPoke), Act(g));
  }

  // ---- Short runs of one goroutine -------------------------------------------------------

  lemma AtSame(s: State, g: nat)
    requires g < |s.pcs|
    ensures At(s, g, s.pcs[g]) == s
  {
  }

  lemma AtEnd(s: State, x: Pc, y: Pc)
    ensures At(s.(pcs := s.pcs + [x]), |s.pcs|, y) == s.(pcs := s.pcs + [y])
  {
    assert (s.pcs + [x])[|s.pcs| := y] == s.pcs + [y];
  }

  /** A new request gets past the breaker, up to the semaphore. */
  lemma Enter(from: State, s: State) returns (t: State)
    requires Reaches(BreakerStep, from, s) && s.inFlight < s.slots
    ensures t == s.(inFlight := s.inFlight + 1, pcs := s.pcs + [AcqLoad])
    ensures Reaches(BreakerStep, from, t)
  {
    var g := |s.pcs|;
    t := s.(inFlight := s.inFlight + 1, pcs := s.pcs + [AcqLoad]);
    var a := s.(pcs := s.pcs + [TryLoad]);
    ReachNext(BreakerStep, from, s, Call);
    AtSame(a, g);
    TryReads(from, a, g);
    TryAdds(from, a, g);
    AtEnd(s.(inFlight := s.inFlight + 1), TryLoad, AcqLoad);
  }

  /** A new request is admitted and runs its thunk. */
  lemma Admit(from: State, s: State)
    requires Reaches(BreakerStep, from, s) && InUse(s) < Cap(s) && s.inFlight < s.slots
    ensures Reaches(BreakerStep, from, Using(s, InUse(s) + 1).(inFlight := s.inFlight + 1, pcs := s.pcs + [Running]))
  {
    hide Reaches, Run, Pack, Hi, Lo;
    var t := Enter(from, s);
    AtSame(t, |s.pcs|);
    SeesRoom(from, t, |s.pcs|);
    TakesRoom(from, t, |s.pcs|);
    AtEnd(Using(s, InUse(s) + 1).(inFlight := s.inFlight + 1), AcqLoad, Running);
  }

  /** A new request finds the semaphore full and waits. */
  lemma Queue(from: State, s: State)
    requires Reaches(BreakerStep, from, s) && InUse(s) >= Cap(s) && s.inFlight < s.slots
    ensures Reaches(BreakerStep, from, s.(inFlight := s.inFlight + 1, pcs := s.pcs + [AcqWait]))
  {
    var t := Enter(from, s);
    AtSame(t, |s.pcs|);
    SeesFull(from, t, |s.pcs|);
    AtEnd(s.(inFlight := s.inFlight + 1), AcqLoad, AcqWait);
  }

  /** A waiting request spends a token, finds the semaphore full and waits again. */
  lemma Drain(from: State, s: State, g: nat)
    requires Reaches(BreakerStep, from, s) && Waiting(s, g) && s.tokens > 0 && InUse(s) >= Cap(s)
    ensures Reaches(BreakerStep, from, s.(tokens := s.tokens - 1))
  {
    AtSame(s, g);
    TakesToken(from, s, g);
    SeesFull(from, s.(tokens := s.tokens - 1), g);
    AtSame(s.(tokens := s.tokens - 1), g);
  }

  /** A waiting request spends a token and takes a free slot. */
  lemma Wake(from: State, s: State, g: nat)
    requires Reaches(BreakerStep, from, s) && Waiting(s, g) && s.tokens > 0 && InUse(s) < Cap(s)
    ensures Reaches(BreakerStep, from,
                    Using(s, InUse(s) + 1).(tokens := s.tokens - 1, pcs := s.pcs[g := Running]))
  {
    AtSame(s, g);
    TakesToken(from, s, g);
    SeesRoom(from, s.(tokens := s.tokens - 1), g);
    TakesRoom(from, s.(tokens := s.tokens - 1), g);
  }

  /** A running request ends its thunk, gives its slot back and sends its token. */
  lemma Finish(from: State, s: State, g: nat)
    requires Reaches(BreakerStep, from, s) && g < |s.pcs| && s.pcs[g].Running? && 0 < InUse(s) <= Cap(s)
    ensures Reaches(BreakerStep, from, Deposit(Using(s, InUse(s) - 1)).(pcs := s.pcs[g := OutLoad]))
  {
    AtSame(s, g);
    EndsThunk(from, s, g);
    SeesBusy(from, s, g);
    GivesBack(from, s, g);
    Sends(from, Using(s, InUse(s) - 1), g);
  }

  // ---- The same, many times --------------------------------------------------------------

  lemma {:induction false} AdmitMany(from: State, s: State, n: nat)
    requires Reaches(BreakerStep, from, s) && InUse(s) + n <= Cap(s) && s.inFlight + n <= s.slots
    ensures Reaches(BreakerStep, from, Using(s, InUse(s) + n).(inFlight := s.inFlight + n, pcs := s.pcs + Repeat(Running, n)))
  {
    hide Reaches, Run, Pack, Hi, Lo;
    UsingIs(s, InUse(s) + n);
    if n == 0 {
      assert s.pcs + Repeat(Running, 0) == s.pcs;
    } else {
      AdmitMany(from, s, n - 1);
      UsingIs(s, InUse(s) + n - 1);
      Admit(from, Using(s, InUse(s) + n - 1).(inFlight := s.inFlight + n - 1, pcs := s.pcs + Repeat(Running, n - 1)));
      assert s.pcs + Repeat(Running, n) == s.pcs + Repeat(Running, n - 1) + [Running];
    }
  }

  lemma {:induction false} QueueMany(from: State, s: State, n: nat)
    requires Reaches(BreakerStep, from, s) && InUse(s) >= Cap(s) && s.inFlight + n <= s.slots
    ensures Reaches(BreakerStep, from, s.(inFlight := s.inFlight + n, pcs := s.pcs + Repeat(AcqWait, n)))
  {
    hide Reaches, Run, Pack, Hi, Lo;
    if n == 0 {
      assert s.pcs + Repeat(AcqWait, 0) == s.pcs;
    } else {
      QueueMany(from, s, n - 1);
      Queue(from, s.(inFlight := s.inFlight + n - 1, pcs := s.pcs + Repeat(AcqWait, n - 1)));
      assert s.pcs + Repeat(AcqWait, n) == s.pcs + Repeat(AcqWait, n - 1) + [AcqWait];
    }
  }

  lemma {:induction false} DrainMany(from: State, s: State, g: nat, n: nat)
    requires Reaches(BreakerStep, from, s) && Waiting(s, g) && s.tokens >= n && InUse(s) >= Cap(s)
    ensures Reaches(BreakerStep, from, s.(tokens := s.tokens - n))
  {
    hide Reaches, Run, Pack, Hi, Lo;
    if n > 0 {
      DrainMany(from, s, g, n - 1);
      Drain(from, s.(tokens := s.tokens - (n - 1)), g);
    }
  }

  /** The first n requests, all running, end one after the other; tokens beyond the channel's size
      are dropped. */
  lemma {:induction false} FinishMany(from: State, s: State, n: nat)
    requires Reaches(BreakerStep, from, s) && s.tokens == 0
    requires n <= |s.pcs| && forall g :: 0 <= g < n ==> s.pcs[g].Running?
    requires n <= InUse(s) <= Cap(s)
    ensures Reaches(BreakerStep, from,
                    Using(s, InUse(s) - n).(tokens := Min(s.chan, n), pcs := Repeat(OutLoad, n) + s.pcs[n..]))
  {
    hide Reaches, Run, Pack, Hi, Lo;
    UsingIs(s, InUse(s) - n);
    if n == 0 {
      assert Repeat(OutLoad, 0) + s.pcs[0..] == s.pcs;
    } else {
      FinishMany(from, s, n - 1);
      var t := Using(s, InUse(s) - (n - 1)).(tokens := Min(s.chan, n - 1), pcs := Repeat(OutLoad, n - 1) + s.pcs[n - 1..]);
      UsingIs(s, InUse(s) - (n - 1));
      Finish(from, t, n - 1);
      assert t.pcs[n - 1 := OutLoad] == Repeat(OutLoad, n) + s.pcs[n..];
    }
  }

  /** The n requests from `first` on, all waiting, take the tokens and the free slots. */
  lemma {:induction false} WakeMany(from: State, s: State, first: nat, n: nat)
    requires Reaches(BreakerStep, from, s) && s.tokens >= n && InUse(s) + n <= Cap(s)
    requires first + n <= |s.pcs| && forall g :: first <= g < first + n ==> s.pcs[g].AcqWait?
    ensures Reaches(BreakerStep, from,
                    Using(s, InUse(s) + n).(tokens := s.tokens - n,
                                            pcs := s.pcs[..first] + Repeat(Running, n) + s.pcs[first + n..]))
  {
    hide Reaches, Run, Pack, Hi, Lo;
    UsingIs(s, InUse(s) + n);
    if n == 0 {
      assert s.pcs[..first] + Repeat(Running, 0) + s.pcs[first..] == s.pcs;
    } else {
      WakeMany(from, s, first, n - 1);
      var t := Using(s, InUse(s) + n - 1).(tokens := s.tokens - (n - 1),
        pcs := s.pcs[..first] + Repeat(Running, n - 1) + s.pcs[first + n - 1..]);
      UsingIs(s, InUse(s) + n - 1);
      Wake(from, t, first + n - 1);
      assert t.pcs[first + n - 1 := Running] == s.pcs[..first] + Repeat(Running, n) + s.pcs[first + n..];
    }
  }

  // ---- Work conservation -----------------------------------------------------------------

  /** No request is left waiting beside a free slot once everything else is quiet. */
  ghost predicate Conserves(slots: nat, chan: nat, cap: Half) {
    forall s: State, g: nat :: Served(slots, chan, cap, s) && Waiting(s, g) && Quiet(s) ==> InUse(s) == cap
  }

  /** With more capacity than channel: cap requests run, chan + 1 wait, and one of those drains the
      tokens left from construction. */
  lemma Crowded(slots: nat, chan: nat, cap: Half) returns (s: State)
    requires chan < cap && slots > cap + chan
    ensures Served(slots, chan, cap, s) && s.slots == slots && s.chan == chan && s.tokens == 0
    ensures InUse(s) == Cap(s) == cap && s.pcs == Repeat(Running, cap) + Repeat(AcqWait, chan + 1)
  {
    hide Reaches, Run, Pack, Hi, Lo;
    var s0 := Fresh(slots, chan, cap);
    PackUnpack(cap, 0, 0);
    ReachSelf(BreakerStep, s0);
    AdmitMany(s0, s0, cap);
    UsingIs(s0, cap);
    var s1 := Using(s0, cap).(inFlight := cap, pcs := [] + Repeat(Running, cap));
    QueueMany(s0, s1, chan + 1);
    var s2 := s1.(inFlight := cap + chan + 1, pcs := s1.pcs + Repeat(AcqWait, chan + 1));
    DrainMany(s0, s2, cap + chan, chan);
    s := s2.(tokens := 0);
  }

  /** From there the first chan + 1 runners end and send chan tokens, and chan waiting requests wake.
      One is left, and so is one slot. */
  lemma Stranded(slots: nat, chan: nat, cap: Half) returns (s: State, g: nat)
    requires chan < cap && slots > cap + chan
    ensures Served(slots, chan, cap, s) && Waiting(s, g) && Quiet(s) && InUse(s) == cap - 1
  {
    hide Reaches, Run, Pack, Hi, Lo;
    g := cap + chan;
    var s0 := Fresh(slots, chan, cap);
    var s3 := Crowded(slots, chan, cap);
    FinishMany(s0, s3, chan + 1);
    UsingIs(s3, cap - chan - 1);
    var s4 := Using(s3, cap - chan - 1).(tokens := chan, pcs := Repeat(OutLoad, chan + 1) + s3.pcs[chan + 1..]);
    WakeMany(s0, s4, cap, chan);
    UsingIs(s4, cap - 1);
    s := Using(s4, cap - 1).(tokens := 0, pcs := s4.pcs[..cap] + Repeat(Running, chan) + s4.pcs[cap + chan..]);
    assert s.pcs[g] == s4.pcs[g] == s3.pcs[g] == AcqWait;
    NobodyMoves(s);
  }

  lemma NobodyMoves(s: State)
    requires s.tokens == 0 && forall pc :: pc in s.pcs ==> pc.OutLoad? || pc.Running? || pc.AcqWait?
    ensures Quiet(s)
  {
    TotalZero(s.pcs, Owed);
    TotalZero(s.pcs, Retrying);
  }

  /** The semaphore wastes no capacity if and only if the capacity fits the channel, or so few slots
      are there that capacity and channel together hold every request. In the terms of NewBreaker, with
      slots = QueueDepth + MaxConcurrency and chan = MaxConcurrency: InitialCapacity <= MaxConcurrency or
      QueueDepth <= InitialCapacity. The resolver's defaults (100, 10, 100) meet the second. */
  lemma WorkConservingIff(slots: nat, chan: nat, cap: Half)
    ensures Conserves(slots, chan, cap) <==> cap <= chan || slots <= cap + chan
  {
    hide Served, Quiet;
    if cap <= chan || slots <= cap + chan {
      forall s: State, g: nat | Served(slots, chan, cap, s) && Waiting(s, g) && Quiet(s) ensures InUse(s) == cap {
        if cap <= chan {
          WideChannelConserves(slots, chan, cap, s, g);
        } else {
          FewSlotsConserve(slots, chan, cap, s, g);
        }
      }
    } else {
      var s, g := Stranded(slots, chan, cap);
    }
  }

  lemma WideChannelConserves(slots: nat, chan: nat, cap: Half, s: State, g: nat)
    requires Served(slots, chan, cap, s) && cap <= chan && Waiting(s, g) && Quiet(s)
    ensures InUse(s) == cap
  {
    ServedIsReachable(slots, chan, cap, s);
    NoLostWakeup(slots, chan, cap, s, g);
    AlwaysInv(slots, chan, cap, s);
  }

  // ---- Lost decrements -------------------------------------------------------------------

  ghost predicate AllReturned(s: State) { forall g :: 0 <= g < |s.pcs| ==> Returned(s.pcs[g]) }

  /** Two requests run one after the other, then read the counter together: one decrement is lost. */
  lemma LoseOne(from: State, s: State) returns (t: State)
    requires Reaches(BreakerStep, from, s) && AllReturned(s)
    requires InUse(s) == 0 < Cap(s) && s.inFlight + 2 <= s.slots
    ensures Reaches(BreakerStep, from, t) && AllReturned(t)
    ensures InUse(t) == 0 < Cap(t) && t.slots == s.slots
    ensures t.inFlight == s.inFlight + 1 && t.lost == s.lost + 1
  {
    hide Reaches, Run, Pack, Hi, Lo;
    var g, h := |s.pcs|, |s.pcs| + 1;
    UsingIs(s, 0);
    UsingIs(s, 1);
    var a := Using(s, 1).(inFlight := s.inFlight + 1, pcs := s.pcs + [Running]);
    Admit(from, s);
    Finish(from, a, g);
    var b := Deposit(s).(inFlight := s.inFlight + 1, pcs := s.pcs + [OutLoad]);
    assert a.pcs[g := OutLoad] == b.pcs;
    UsingIs(b, 1);
    Admit(from, b);
    var c := Using(b, 1).(inFlight := s.inFlight + 2, pcs := b.pcs + [Running]);
    Finish(from, c, h);
    var d := Deposit(b).(inFlight := s.inFlight + 2, pcs := s.pcs + [OutLoad, OutLoad]);
    assert c.pcs[h := OutLoad] == d.pcs;
    t := LoseRace(from, d, g, h);
  }

  lemma LoseRace(from: State, d: State, g: nat, h: nat) returns (t: State)
    requires Reaches(BreakerStep, from, d) && g != h && g < |d.pcs| && h < |d.pcs|
    requires d.pcs[g] == d.pcs[h] == OutLoad
    ensures t == d.(inFlight := d.inFlight - 1, lost := d.lost + 1, pcs := d.pcs[g := Left][h := Left])
    ensures Reaches(BreakerStep, from, t)
  {
    hide Reaches, Run;
    ReachNext(BreakerStep, from, d, Act(g));
    var e := At(d, g, OutCas(d.inFlight));
    ReachNext(BreakerStep, from, e, Act(h));
    var f := At(e, h, OutCas(d.inFlight));
    ReachNext(BreakerStep, from, f, Act(g));
    var k := At(f.(inFlight := d.inFlight - 1), g, Left);
    ReachNext(BreakerStep, from, k, Act(h));
    t := At(k.(lost := d.lost + 1), h, Left);
    assert t.pcs == d.pcs[g := Left][h := Left];
  }

  lemma {:induction false} WornDown(slots: nat, chan: nat, cap: Half, n: nat) returns (s: State)
    requires n < slots && cap > 0
    ensures Served(slots, chan, cap, s) && AllReturned(s) && InUse(s) == 0 < Cap(s)
    ensures s.slots == slots && s.lost == s.inFlight == n
  {
    if n == 0 {
      s := Fresh(slots, chan, cap);
      FreshInv(slots, chan, cap);
      ReachSelf(BreakerStep, s);
    } else {
      s := WornDown(slots, chan, cap, n - 1);
      s := LoseOne(Fresh(slots, chan, cap), s);
    }
  }

  /** However many slots there are, lost decrements can use up all but one of them: then a single
      request inside the breaker makes it refuse every other, so `lost < slots` is exact. */
  lemma OneRequestFills(slots: nat, chan: nat, cap: Half) returns (s: State)
    requires slots > 0 && cap > 0
    ensures Served(slots, chan, cap, s) && s.lost == slots - 1
    ensures Total(s.pcs, Inside) == 1 && s.inFlight == slots
  {
    var t := WornDown(slots, chan, cap, slots - 1);
    Admit(Fresh(slots, chan, cap), t);
    s := Using(t, 1).(inFlight := slots, pcs := t.pcs + [Running]);
    BreakerAccounting(slots, chan, cap, s);
  }
}
