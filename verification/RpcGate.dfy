/** The gate in front of the operator: one request per service name and window. The map of mutexes,
    the mutexes and the release timers interleave freely over any number of callers. */
module RpcGate {
  import opened Runs

  datatype Pc =
    | LoadOrStore | Lock(m: nat) | Sending(m: nat)
    | Timer(due: int)
    | RelLoad | RelUnlock(m: nat) | RelDelete
    | Done | Dropped
    | Fatal                          // unlock of an unlocked mutex

  /** For one service name: the mutex in the map, which mutexes are locked, when the last request to the
      operator ended, and where each caller stands and which namespace it asks for. */
  datatype State = State(retry: nat, now: int, entry: Option<nat>, locked: seq<bool>,
                         lastEnd: Option<int>, pcs: seq<Pc>, namespaces: seq<string>)

  datatype Event = Pass(d: nat) | Send(ns: string) | Act(g: nat)

  function At(s: State, g: nat, pc: Pc): State
    requires g < |s.pcs|
  {
    s.(pcs := s.pcs[g := pc])
  }

  function Move(s: State, g: nat): Option<State>
    requires g < |s.pcs|
  {
    match s.pcs[g]
    case LoadOrStore =>
      Some(if s.entry.Some? then At(s, g, Dropped)
           else At(s.(entry := Some(|s.locked|), locked := s.locked + [false]), g, Lock(|s.locked|)))
    case Lock(m) =>
      if m < |s.locked| && !s.locked[m] then Some(At(s.(locked := s.locked[m := true]), g, Sending(m))) else None
    case Sending(m) =>
      // the request has ended, in whatever way: the deferred timer is armed
      Some(At(s.(lastEnd := Some(s.now)), g, Timer(s.now + s.retry)))
    case Timer(due) => if due <= s.now then Some(At(s, g, RelLoad)) else None
    case RelLoad => Some(At(s, g, if s.entry.Some? then RelUnlock(s.entry.value) else Done))
    case RelUnlock(m) =>
      Some(if m < |s.locked| && s.locked[m] then At(s.(locked := s.locked[m := false]), g, RelDelete)
           else At(s, g, Fatal))
    case RelDelete => Some(At(s.(entry := None), g, Done))
    case Done | Dropped | Fatal => None
  }

  function Step(s: State, e: Event): Option<State> {
    match e
    case Pass(d) => Some(s.(now := s.now + d))
    case Send(ns) => Some(s.(pcs := s.pcs + [LoadOrStore], namespaces := s.namespaces + [ns]))
    case Act(g) => if g < |s.pcs| then Move(s, g) else None
  }

  function Fresh(retry: nat, now: int): State { State(retry, now, None, [], None, [], []) }

  /** Has stored the entry and not yet deleted it. */
  function Owns(pc: Pc): nat { if pc.LoadOrStore? || pc.Done? || pc.Dropped? || pc.Fatal? then 0 else 1 }

  /** The last window is over. */
  predicate WindowOver(s: State) { s.lastEnd.Some? ==> s.lastEnd.value + s.retry <= s.now }

  /** What the owner may count on. */
  predicate Holds(s: State, pc: Pc) {
    match pc
    case Lock(m) => s.entry == Some(m) && m < |s.locked| && !s.locked[m] && WindowOver(s)
    case Sending(m) => s.entry == Some(m) && m < |s.locked| && s.locked[m] && WindowOver(s)
    case Timer(due) => Held(s) && s.lastEnd.Some? && due == s.lastEnd.value + s.retry
    case RelLoad => Held(s) && WindowOver(s)
    case RelUnlock(m) => Held(s) && s.entry == Some(m) && WindowOver(s)
    case RelDelete => s.entry.Some? && WindowOver(s)
    case Fatal => false
    case _ => true
  }

  predicate Held(s: State) {
    s.entry.Some? && s.entry.value < |s.locked| && s.locked[s.entry.value]
  }

  ghost predicate Inv(s: State) {
    && Total(s.pcs, Owns) == (if s.entry.Some? then 1 else 0)
    && (s.entry.None? ==> WindowOver(s))
    && forall g :: 0 <= g < |s.pcs| ==> Holds(s, s.pcs[g])
  }

  /** Of two goroutines at most one owns the entry. */
  lemma OneOwner(s: State, g: nat, h: nat)
    requires Inv(s) && g != h && g < |s.pcs| && h < |s.pcs|
    ensures Owns(s.pcs[g]) == 0 || Owns(s.pcs[h]) == 0
  {
    TotalUpdate(s.pcs, Owns, g, Done);
    TotalUpdate(s.pcs[g := Done], Owns, h, Done);
  }

  lemma MoveHolds(s: State, g: nat, t: State)
    requires g < |s.pcs| && Holds(s, s.pcs[g]) && Move(s, g) == Some(t)
    requires s.entry.None? ==> WindowOver(s) && Owns(s.pcs[g]) == 0
    ensures |t.pcs| == |s.pcs| && t.pcs == s.pcs[g := t.pcs[g]] && Holds(t, t.pcs[g])
    ensures t.now == s.now && t.retry == s.retry && (t.entry.None? ==> WindowOver(t))
    ensures (if t.entry.Some? then 1 else 0) - (if s.entry.Some? then 1 else 0) == Owns(t.pcs[g]) - Owns(s.pcs[g])
    ensures Owns(s.pcs[g]) == 0 && s.entry.Some?
            ==> t.entry == s.entry && t.locked == s.locked && t.lastEnd == s.lastEnd
  {
  }

  /** Another goroutine keeps what it may count on: either it owns nothing, or g does not and so
      leaves the entry, the mutexes and the window alone. */
  lemma OthersHold(s: State, g: nat, t: State, h: nat)
    requires Inv(s) && g != h && g < |s.pcs| && h < |s.pcs| && Move(s, g) == Some(t)
    ensures Holds(t, s.pcs[h])
  {
    assert Holds(s, s.pcs[h]) && Holds(s, s.pcs[g]);
    OneOwner(s, g, h);
    TotalUpdate(s.pcs, Owns, h, Done);
    TotalUpdate(s.pcs, Owns, g, Done);
    MoveHolds(s, g, t);
    hide Move, Total;
  }

  lemma ActKeeps(s: State, g: nat, t: State)
    requires Inv(s) && g < |s.pcs| && Move(s, g) == Some(t)
    ensures Inv(t)
  {
    hide Move, Holds, WindowOver;
    assert Holds(s, s.pcs[g]);
    TotalUpdate(s.pcs, Owns, g, Done);
    MoveHolds(s, g, t);
    TotalUpdate(s.pcs, Owns, g, t.pcs[g]);
    forall h | 0 <= h < |t.pcs| ensures Holds(t, t.pcs[h]) {
      if h != g {
        OthersHold(s, g, t, h);
      }
    }
  }

  lemma StepKeeps(s: State, e: Event)
    requires Inv(s) && Step(s, e).Some?
    ensures Inv(Step(s, e).value)
  {
    hide Move;
    var t := Step(s, e).value;
    match e
    case Pass(d) =>
      forall h | 0 <= h < |t.pcs| ensures Holds(t, t.pcs[h]) { assert Holds(s, s.pcs[h]); }
    case Send(_) =>
      TotalAppend(s.pcs, Owns, LoadOrStore);
      forall h | 0 <= h < |t.pcs| ensures Holds(t, t.pcs[h]) { assert h < |s.pcs| ==> Holds(s, s.pcs[h]); }
    case Act(g) => ActKeeps(s, g, t);
  }

  lemma AlwaysInv(retry: nat, now: int, s: State)
    requires Reaches(Step, Fresh(retry, now), s)
    ensures Inv(s)
  {
    hide Reaches, Run;
    forall u: State, e: Event | Inv(u) && Step(u, e).Some? ensures Inv(Step(u, e).value) { StepKeeps(u, e); }
    Invariance(Step, Inv, Fresh(retry, now), s);
  }

  /** The entry exists exactly as long as one goroutine owns it, so at most one request to the
      operator for a service name is outstanding. */
  lemma OneRequestOutstanding(retry: nat, now: int, s: State)
    requires Reaches(Step, Fresh(retry, now), s)
    ensures Total(s.pcs, Owns) == if s.entry.Some? then 1 else 0
    ensures forall g, h :: 0 <= g < h < |s.pcs| ==> !(s.pcs[g].Sending? && s.pcs[h].Sending?)
  {
    AlwaysInv(retry, now, s);
    forall g, h | 0 <= g < h < |s.pcs| ensures !(s.pcs[g].Sending? && s.pcs[h].Sending?) {
      OneOwner(s, g, h);
    }
  }

  /** Locking never blocks, unlocking is never unpaired, and a request starts only when the window of
      the last one is over. */
  lemma LocksNeverBlock(retry: nat, now: int, s: State, g: nat)
    requires Reaches(Step, Fresh(retry, now), s) && g < |s.pcs|
    ensures !s.pcs[g].Fatal?
    ensures s.pcs[g].Lock? ==> Step(s, Act(g)).Some? && WindowOver(s)
    ensures s.pcs[g].RelUnlock? ==>
              && Step(s, Act(g)).Some? && Step(s, Act(g)).value.pcs[g].RelDelete?
              && s.pcs[g].m < |s.locked| && s.locked[s.pcs[g].m] && !Step(s, Act(g)).value.locked[s.pcs[g].m]
  {
    AlwaysInv(retry, now, s);
    assert Holds(s, s.pcs[g]);
  }

  /** A request is dropped exactly while some request for a service of that name, of whatever namespace,
      has its window open; a request that gets through finds the last window over. */
  lemma DroppedIff(retry: nat, now: int, s: State, g: nat)
    requires Reaches(Step, Fresh(retry, now), s) && g < |s.pcs| && s.pcs[g].LoadOrStore?
    ensures Step(s, Act(g)).Some?
    ensures var t := Step(s, Act(g)).value;
      && (t.pcs[g].Dropped? <==> exists h :: 0 <= h < |s.pcs| && Owns(s.pcs[h]) > 0)
      && (!t.pcs[g].Dropped? ==> Owns(t.pcs[g]) > 0 && WindowOver(s))
  {
    AlwaysInv(retry, now, s);
    if s.entry.Some? {
      var h := TotalPositive(s.pcs, Owns);
    } else {
      forall h | 0 <= h < |s.pcs| ensures Owns(s.pcs[h]) == 0 { TotalUpdate(s.pcs, Owns, h, Done); }
    }
  }

  /** So, in every reachable state with an open window, the next request is dropped for every namespace,
      also for those that the open window is not about. */
  lemma DropsEveryNamespace(retry: nat, now: int, s: State, h: nat, ns: string) returns (t: State)
    requires Reaches(Step, Fresh(retry, now), s) && h < |s.pcs| && Owns(s.pcs[h]) > 0
    ensures Reaches(Step, s, t) && t == s.(pcs := s.pcs + [Dropped], namespaces := s.namespaces + [ns])
  {
    AlwaysInv(retry, now, s);
    TotalUpdate(s.pcs, Owns, h, Done);
    hide Reaches, Run, Inv;
    ReachSelf(Step, s);
    ReachNext(Step, s, s, Send(ns));
    var u := s.(pcs := s.pcs + [LoadOrStore], namespaces := s.namespaces + [ns]);
    assert u.pcs[|s.pcs| := Dropped] == s.pcs + [Dropped];
    ReachNext(Step, s, u, Act(|s.pcs|));
    t := s.(pcs := s.pcs + [Dropped], namespaces := s.namespaces + [ns]);
  }

  /** The window is as long as configured: once the request of g has ended, and d has passed, its timer can
      fire if and only if d is at least the retry duration. */
  lemma WindowLength(s: State, g: nat, d: nat)
    requires g < |s.pcs| && s.pcs[g].Sending?
    ensures Step(s, Act(g)).Some? && Step(Step(s, Act(g)).value, Pass(d)).Some?
    ensures Step(Step(Step(s, Act(g)).value, Pass(d)).value, Act(g)).Some? <==> d >= s.retry
  {
  }

  lemma Goes(from: State, s: State, g: nat) returns (t: State)
    requires Reaches(Step, from, s) && g < |s.pcs| && Move(s, g).Some?
    ensures Reaches(Step, from, t) && t == Move(s, g).value
  {
    ReachNext(Step, from, s, Act(g));
    t := Move(s, g).value;
  }

  /** And it closes: from every reachable state without an open window, a request gets through to the
      operator, and one retry duration after its end the next one can. */
  lemma WindowCloses(retry: nat, now: int, s: State, ns: string) returns (sending: State, t: State)
    requires Reaches(Step, Fresh(retry, now), s) && s.entry.None?
    ensures Reaches(Step, Fresh(retry, now), sending) && |sending.pcs| == |s.pcs| + 1 && sending.pcs[|s.pcs|].Sending?
    ensures Reaches(Step, Fresh(retry, now), t) && t.entry.None? && t.pcs == s.pcs + [Done]
    ensures t.now == s.now + s.retry && t.lastEnd == Some(s.now)
  {
    hide Reaches, Run;
    var from, g := Fresh(retry, now), |s.pcs|;
    ReachNext(Step, from, s, Send(ns));
    t := Step(s, Send(ns)).value;
    t := Goes(from, t, g);
    t := Goes(from, t, g);
    sending := t;
    t := Goes(from, t, g);
    ReachNext(Step, from, t, Pass(s.retry));
    t := Step(t, Pass(s.retry)).value;
    t := Goes(from, t, g);
    t := Goes(from, t, g);
    t := Goes(from, t, g);
    t := Goes(from, t, g);
  }
}
