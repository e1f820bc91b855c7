/** The traffic switch of one incoming host: GetHost caches a host object, DisableTrafficForHost
    clears its flag and arms a timer, and the timer's function sets the flag again. Loads of the map,
    reads and writes of the flag, stores and timers interleave freely. */
module TrafficGate {
  import opened Runs

  datatype Pc =
    | GetLoad | GetStore
    | DisLoad | DisTest(o: nat) | DisSet(o: nat) | DisStore(o: nat) | DisArm
    | Timer
    | EnLoad | EnTest(o: nat) | EnSet(o: nat) | EnStore(o: nat)
    | Done

  /** `allowed` holds the flag of every host object ever made, `entry` the object the map holds. */
  datatype State = State(allowed: seq<bool>, entry: Option<nat>, pcs: seq<Pc>)

  datatype Event = GetHost | Disable | Act(g: nat)

  /** One more than the object a goroutine has in hand; 0 when it has none. */
  function Object(pc: Pc): nat {
    match pc
    case DisTest(o) => o + 1
    case DisSet(o) => o + 1
    case DisStore(o) => o + 1
    case EnTest(o) => o + 1
    case EnSet(o) => o + 1
    case EnStore(o) => o + 1
    case _ => 0
  }

  function At(s: State, g: nat, pc: Pc): State
    requires g < |s.pcs|
  {
    s.(pcs := s.pcs[g := pc])
  }

  function MakeHost(s: State): State {
    s.(allowed := s.allowed + [true], entry := Some(|s.allowed|))
  }

  function Move(s: State, g: nat): Option<State>
    requires g < |s.pcs|
  {
    var pc := s.pcs[g];
    if Object(pc) > |s.allowed| then None
    else match pc
      case GetLoad => Some(At(s, g, if s.entry.Some? then Done else GetStore))
      case GetStore => Some(At(MakeHost(s), g, Done))
      case DisLoad => Some(At(s, g, if s.entry.Some? then DisTest(s.entry.value) else Done))
      case DisTest(o) => Some(At(s, g, if s.allowed[o] then DisSet(o) else Done))
      case DisSet(o) => Some(At(s.(allowed := s.allowed[o := false]), g, DisStore(o)))
      case DisStore(o) => Some(At(s.(entry := Some(o)), g, DisArm))
      case DisArm => Some(At(s, g, Timer))
      case Timer => Some(At(s, g, EnLoad))
      case EnLoad => Some(At(s, g, if s.entry.Some? then EnTest(s.entry.value) else Done))
      case EnTest(o) => Some(At(s, g, if s.allowed[o] then Done else EnSet(o)))
      case EnSet(o) => Some(At(s.(allowed := s.allowed[o := true]), g, EnStore(o)))
      case EnStore(o) => Some(At(s.(entry := Some(o)), g, Done))
      case Done => None
  }

  function Step(s: State, e: Event): Option<State> {
    match e
    case GetHost => Some(s.(pcs := s.pcs + [GetLoad]))
    case Disable => Some(s.(pcs := s.pcs + [DisLoad]))
    case Act(g) => if g < |s.pcs| then Move(s, g) else None
  }

  function Fresh(): State { State([], None, []) }

  // ---- Being stuck -----------------------------------------------------------------------

  predicate Shut(s: State) {
    s.entry.Some? && s.entry.value < |s.allowed| && !s.allowed[s.entry.value]
  }

  /** Every object in the map or in somebody's hand exists. */
  ghost predicate Proper(s: State) {
    && (s.entry.Some? ==> s.entry.value < |s.allowed|)
    && forall g :: 0 <= g < |s.pcs| ==> Object(s.pcs[g]) <= |s.allowed|
  }

  /** Left alone, a goroutine here would open the host again. */
  predicate Hope(allowed: seq<bool>, pc: Pc)
    requires Object(pc) <= |allowed|
  {
    match pc
    case GetStore => true
    case DisTest(o) => allowed[o]
    case DisSet(_) => true
    case DisStore(_) => true
    case DisArm => true
    case Timer => true
    case EnLoad => true
    case EnTest(o) => !allowed[o]
    case EnSet(_) => true
    case EnStore(o) => allowed[o]
    case _ => false
  }

  /** The host is shut and nobody is going to open it. */
  ghost predicate Stuck(s: State) {
    Proper(s) && Shut(s) && forall g :: 0 <= g < |s.pcs| ==> !Hope(s.allowed, s.pcs[g])
  }

  /** The number of steps a goroutine has left, at most. */
  function Rank(pc: Pc): nat {
    match pc
    case GetLoad => 2 case GetStore => 1
    case DisLoad => 10 case DisTest(_) => 9 case DisSet(_) => 8 case DisStore(_) => 7 case DisArm => 6
    case Timer => 5
    case EnLoad => 4 case EnTest(_) => 3 case EnSet(_) => 2 case EnStore(_) => 1
    case Done => 0
  }

  lemma MoveIsProper(s: State, g: nat)
    requires Proper(s) && g < |s.pcs|
    ensures Move(s, g).Some? <==> !s.pcs[g].Done?
    ensures Move(s, g).Some? ==>
              var t := Move(s, g).value;
              && Proper(t) && |t.pcs| == |s.pcs| && t.pcs == s.pcs[g := t.pcs[g]]
              && Rank(t.pcs[g]) < Rank(s.pcs[g]) && |s.allowed| <= |t.allowed|
  {
    assert Object(s.pcs[g]) <= |s.allowed|;
  }

  lemma StepIsProper(s: State, e: Event)
    requires Proper(s) && Step(s, e).Some?
    ensures Proper(Step(s, e).value)
  {
    if e.Act? {
      MoveIsProper(s, e.g);
    }
  }

  /** A hopeful goroutine keeps its hope until the host is open. */
  lemma HopeMoves(s: State, g: nat, t: State)
    requires Proper(s) && Shut(s) && g < |s.pcs| && Hope(s.allowed, s.pcs[g]) && Move(s, g) == Some(t) && Proper(t)
    ensures Shut(t) ==> Hope(t.allowed, t.pcs[g])
  {
  }

  lemma {:induction false} Rescue(from: State, s: State, g: nat) returns (t: State)
    requires Proper(s) && Reaches(Step, from, s) && g < |s.pcs| && Hope(s.allowed, s.pcs[g])
    ensures Reaches(Step, from, t) && !Shut(t)
    decreases Rank(s.pcs[g])
  {
    hide Reaches, Run, Move;
    t := s;
    if Shut(s) {
      MoveIsProper(s, g);
      var u := Move(s, g).value;
      HopeMoves(s, g, u);
      ReachNext(Step, from, s, Act(g));
      t := u;
      if Shut(u) {
        t := Rescue(from, u, g);
      }
    }
  }

  /** The store at the end of enabling, when its object has been disabled again since and nobody else
      is going to open it. */
  ghost predicate Harmful(s: State, e: Event) {
    && e.Act? && e.g < |s.pcs| && s.pcs[e.g].EnStore? && s.pcs[e.g].o < |s.allowed| && !s.allowed[s.pcs[e.g].o]
    && forall h :: 0 <= h < |s.pcs| && h != e.g && Object(s.pcs[h]) <= |s.allowed| ==> !Hope(s.allowed, s.pcs[h])
  }

  /** Only that step gets the host stuck. */
  lemma StuckStepIff(s: State, e: Event)
    requires Proper(s) && !Stuck(s) && Step(s, e).Some?
    ensures Stuck(Step(s, e).value) <==> Harmful(s, e)
  {
    StepIsProper(s, e);
    var t := Step(s, e).value;
    if e.Act? {
      MoveIsProper(s, e.g);
      ActStuckIff(s, e.g, t);
    } else {
      OthersThere(s, t);
    }
  }

  lemma OthersThere(s: State, t: State)
    requires Proper(s) && !Stuck(s) && t.allowed == s.allowed && t.entry == s.entry && s.pcs <= t.pcs
    ensures !Stuck(t)
  {
    if Shut(s) {
      var h :| 0 <= h < |s.pcs| && Hope(s.allowed, s.pcs[h]);
      assert t.pcs[h] == s.pcs[h];
    }
  }

  lemma ActStuckIff(s: State, g: nat, t: State)
    requires Proper(s) && !Stuck(s) && g < |s.pcs| && Move(s, g) == Some(t) && Proper(t)
    requires t.pcs == s.pcs[g := t.pcs[g]] && |t.pcs| == |s.pcs|
    ensures Stuck(t) <==> Harmful(s, Act(g))
  {
    if t.allowed == s.allowed {
      assert forall h :: 0 <= h < |s.pcs| && h != g ==> t.pcs[h] == s.pcs[h];
    }
    if Harmful(s, Act(g)) {
      assert Stuck(t);
    }
  }

  lemma StuckStays(s: State, e: Event)
    requires Stuck(s) && Step(s, e).Some?
    ensures Stuck(Step(s, e).value)
  {
    StepIsProper(s, e);
    if e.Act? {
      MoveIsProper(s, e.g);
      assert !Hope(s.allowed, s.pcs[e.g]);
    }
  }

  /** Being stuck means that the host is shut for ever, whatever happens. */
  lemma StuckIsForever(s: State)
    requires Proper(s)
    ensures Stuck(s) <==> forall t: State :: Reaches(Step, s, t) ==> Shut(t)
  {
    hide Reaches, Run, Step, Move;
    ReachSelf(Step, s);
    if Stuck(s) {
      forall t: State | Reaches(Step, s, t) ensures Shut(t) {
        forall u: State, e: Event | Stuck(u) && Step(u, e).Some? ensures Stuck(Step(u, e).value) { StuckStays(u, e); }
        Invariance(Step, Stuck, s, t);
      }
    } else if Shut(s) {
      var g :| 0 <= g < |s.pcs| && Hope(s.allowed, s.pcs[g]);
      var t := Rescue(s, s, g);
    }
  }

  /** A run gets stuck if and only if it takes the harmful step. */
  lemma NeverStuckIff(es: seq<Event>)
    requires Run(Step, Fresh(), es).Some?
    ensures Always(Step, Fresh(), es, s => !Stuck(s)) <==> !Ever(Step, Fresh(), es, Harmful)
  {
    hide Run, Step, Harmful, Stuck, Always, Ever;
    assert !Stuck(Fresh()) by { NotShutNotStuck(Fresh()); }
    var fine := (s: State) => !Stuck(s);
    forall u: State, e: Event | Proper(u) && Step(u, e).Some?
      ensures Proper(Step(u, e).value) && (fine(u) ==> (fine(Step(u, e).value) <==> !Harmful(u, e)))
    {
      StepIsProper(u, e);
      if fine(u) {
        StuckStepIff(u, e);
      }
    }
    AlwaysIff(Step, Fresh(), es, Proper, fine, Harmful);
  }

  lemma NotShutNotStuck(s: State)
    requires !Shut(s)
    ensures !Stuck(s)
  {
  }

  /** Whoever else has replaced the object in the map: when the store of a disable is done, the host is shut
      unless its object has been opened meanwhile, and when the store of an enable is done, it is open
      unless its object has been shut meanwhile. */
  lemma StoreDecides(s: State, g: nat, o: nat)
    requires Proper(s) && g < |s.pcs| && (s.pcs[g] == DisStore(o) || s.pcs[g] == EnStore(o))
    ensures Step(s, Act(g)).Some? && o < |s.allowed|
    ensures Shut(Step(s, Act(g)).value) <==> !s.allowed[o]
  {
    MoveIsProper(s, g);
    assert Object(s.pcs[g]) == o + 1;
  }

  // ---- Late lookups ----------------------------------------------------------------------

  /** A first lookup stores its object while somebody has another in hand. */
  predicate Late(s: State, e: Event) {
    e.Act? && e.g < |s.pcs| && s.pcs[e.g].GetStore? && exists pc :: pc in s.pcs && Object(pc) > 0
  }

  /** The steps of runs without late stores. */
  function TidyStep(s: State, e: Event): Option<State> { if Late(s, e) then None else Step(s, e) }

  /** On the way to enable the traffic again: from clearing the flag to setting it. */
  function Pending(pc: Pc): nat {
    if pc.DisStore? || pc.DisArm? || pc.Timer? || pc.EnLoad? || pc.EnTest? || pc.EnSet? then 1 else 0
  }

  /** Whoever has an object in hand has the one in the map. */
  ghost predicate InHand(s: State) {
    forall g :: 0 <= g < |s.pcs| && Object(s.pcs[g]) > 0 ==> s.entry == Some(Object(s.pcs[g]) - 1)
  }

  ghost predicate Tidy(s: State) { Proper(s) && InHand(s) && (Shut(s) ==> Total(s.pcs, Pending) > 0) }

  lemma TidyMove(s: State, g: nat, t: State)
    requires Proper(s) && InHand(s) && g < |s.pcs| && Move(s, g) == Some(t) && !Late(s, Act(g))
    ensures InHand(t)
    ensures Shut(t) ==> Pending(t.pcs[g]) > 0 || (Shut(s) && Pending(s.pcs[g]) == 0)
  {
    assert Object(s.pcs[g]) > 0 ==> s.entry == Some(Object(s.pcs[g]) - 1);
    assert forall h :: 0 <= h < |s.pcs| ==> s.pcs[h] in s.pcs;
  }

  lemma TidyStepKeeps(s: State, e: Event)
    requires Tidy(s) && TidyStep(s, e).Some?
    ensures Tidy(TidyStep(s, e).value)
  {
    hide Move;
    StepIsProper(s, e);
    var t := Step(s, e).value;
    match e
    case GetHost => TotalAppend(s.pcs, Pending, GetLoad);
    case Disable => TotalAppend(s.pcs, Pending, DisLoad);
    case Act(g) =>
      MoveIsProper(s, g);
      TidyMove(s, g, t);
      TotalUpdate(s.pcs, Pending, g, t.pcs[g]);
  }

  lemma TidyIsNotStuck(s: State)
    requires Tidy(s)
    ensures !Stuck(s)
  {
    if Shut(s) {
      var g := TotalPositive(s.pcs, Pending);
      assert Hope(s.allowed, s.pcs[g]);
    }
  }

  lemma AlwaysTidy(s: State)
    requires Reaches(TidyStep, Fresh(), s)
    ensures Tidy(s)
  {
    hide Reaches, Run, Step;
    forall u: State, e: Event | Tidy(u) && TidyStep(u, e).Some? ensures Tidy(TidyStep(u, e).value) {
      TidyStepKeeps(u, e);
    }
    Invariance(TidyStep, Tidy, Fresh(), s);
  }

  /** The host is not stuck, everybody works on the object in the map, and nobody is about to store
      another: so nobody can come late any more. */
  ghost predicate Calm(s: State) {
    Proper(s) && InHand(s) && s.entry.Some? && GetStore !in s.pcs && !Stuck(s)
  }

  /** A harmful step of a goroutine that works on the object in the map would find the host stuck
      already. */
  lemma CalmStays(s: State, e: Event)
    requires Calm(s) && Step(s, e).Some?
    ensures Calm(Step(s, e).value)
  {
    assert forall h :: 0 <= h < |s.pcs| ==> s.pcs[h] in s.pcs;
    StepIsProper(s, e);
    StuckStepIff(s, e);
    if e.Act? {
      MoveIsProper(s, e.g);
      TidyMove(s, e.g, Step(s, e).value);
    }
  }

  // ---- How a late store gets the host stuck ----------------------------------------------

  lemma Go(from: State, s: State, g: nat, t: State)
    requires Reaches(Step, from, s) && g < |s.pcs| && Move(s, g) == Some(t)
    ensures Reaches(Step, from, t)
  {
    ReachNext(Step, from, s, Act(g));
  }

  lemma AtTwice(s: State, g: nat, x: Pc, y: Pc)
    requires g < |s.pcs|
    ensures At(At(s, g, x), g, y) == At(s, g, y)
  {
    assert s.pcs[g := x][g := y] == s.pcs[g := y];
  }

  /** Goroutine g, at x, moves to y. */
  lemma Moves(from: State, s: State, g: nat, x: Pc, t: State, y: Pc)
    requires g < |s.pcs| == |t.pcs| && t.pcs == s.pcs && Reaches(Step, from, At(s, g, x))
    requires Move(At(s, g, x), g) == Some(At(At(t, g, x), g, y))
    ensures Reaches(Step, from, At(t, g, y))
  {
    hide Reaches, Run, Move;
    AtTwice(t, g, x, y);
    Go(from, At(s, g, x), g, At(t, g, y));
  }

  /** s with object o open or shut. */
  function Flag(s: State, o: nat, open: bool): State
    requires o < |s.allowed|
  {
    s.(allowed := s.allowed[o := open])
  }

  /** Goroutine g disables the open object of the map and goes all the way to its timer. */
  lemma Disables(from: State, s: State, g: nat, o: nat)
    requires g < |s.pcs| && Reaches(Step, from, At(s, g, DisLoad))
    requires s.entry == Some(o) && o < |s.allowed| && s.allowed[o]
    ensures Reaches(Step, from, At(Flag(s, o, false), g, Timer))
  {
    hide Reaches, Run;
    var shut := Flag(s, o, false);
    Moves(from, s, g, DisLoad, s, DisTest(o));
    Moves(from, s, g, DisTest(o), s, DisSet(o));
    Moves(from, s, g, DisSet(o), shut, DisStore(o));
    Moves(from, shut, g, DisStore(o), shut, DisArm);
    Moves(from, shut, g, DisArm, shut, Timer);
  }

  /** The timer of g fires and finds the object of the map shut: g opens it, up to the store. */
  lemma Enables(from: State, s: State, g: nat, o: nat)
    requires g < |s.pcs| && Reaches(Step, from, At(s, g, Timer))
    requires s.entry == Some(o) && o < |s.allowed| && !s.allowed[o]
    ensures Reaches(Step, from, At(Flag(s, o, true), g, EnStore(o)))
  {
    hide Reaches, Run;
    Moves(from, s, g, Timer, s, EnLoad);
    Moves(from, s, g, EnLoad, s, EnTest(o));
    Moves(from, s, g, EnTest(o), s, EnSet(o));
    Moves(from, s, g, EnSet(o), Flag(s, o, true), EnStore(o));
  }

  /** The timer of g fires and finds the object of the map open. */
  lemma FindsOpen(from: State, s: State, g: nat, o: nat)
    requires g < |s.pcs| && Reaches(Step, from, At(s, g, Timer))
    requires s.entry == Some(o) && o < |s.allowed| && s.allowed[o]
    ensures Reaches(Step, from, At(s, g, Done))
  {
    hide Reaches, Run;
    Moves(from, s, g, Timer, s, EnLoad);
    Moves(from, s, g, EnLoad, s, EnTest(o));
    Moves(from, s, g, EnTest(o), s, Done);
  }

  predicate Alone(s: State, g: nat) {
    g < |s.pcs| && s.pcs[g].GetStore? && forall h :: 0 <= h < |s.pcs| && h != g ==> s.pcs[h].Done?
  }

  /** Everybody but g, which is about to store late, runs to its end. */
  lemma {:induction false} Settle(from: State, s: State, g: nat) returns (t: State)
    requires Reaches(Step, from, s) && Tidy(s) && s.entry.Some? && g < |s.pcs| && s.pcs[g].GetStore?
    ensures Reaches(Step, from, t) && Tidy(t) && t.entry.Some? && Alone(t, g)
    decreases Total(s.pcs, Rank)
  {
    hide Reaches, Run, Move, Tidy;
    t := s;
    if h :| 0 <= h < |s.pcs| && h != g && !s.pcs[h].Done? && !s.pcs[h].GetStore? {
      t := SettleOne(from, s, g, h);
    } else if h :| 0 <= h < |s.pcs| && h != g && s.pcs[h].GetStore? {
      assert forall pc :: pc in s.pcs ==> pc.Done? || pc.GetStore?;
      t := SettleOne(from, s, g, h);
    }
    if t != s {
      t := Settle(from, t, g);
    }
  }

  lemma SettleOne(from: State, s: State, g: nat, h: nat) returns (t: State)
    requires Reaches(Step, from, s) && Tidy(s) && s.entry.Some? && g < |s.pcs| && s.pcs[g].GetStore?
    requires h < |s.pcs| && h != g && !s.pcs[h].Done? && !Late(s, Act(h))
    ensures Reaches(Step, from, t) && Tidy(t) && t.entry.Some? && g < |t.pcs| && t.pcs[g].GetStore?
    ensures Total(t.pcs, Rank) < Total(s.pcs, Rank)
  {
    hide Reaches, Run;
    MoveIsProper(s, h);
    t := Move(s, h).value;
    TidyStepKeeps(s, Act(h));
    hide Move, Tidy;
    ReachNext(Step, from, s, Act(h));
    TotalUpdate(s.pcs, Rank, h, t.pcs[h]);
  }

  /** The object in the map is disabled, enabled again up to the store, and disabled a second time. Then
      the late lookup stores its own object, the second timer finds that one open, and the first
      timer's function stores the shut one. */
  lemma LateStoreSticks(from: State, s: State, g: nat) returns (t: State)
    requires Reaches(Step, from, s) && Tidy(s) && s.entry.Some? && Alone(s, g)
    ensures Reaches(Step, from, t) && Stuck(t)
  {
    var o, n := s.entry.value, |s.pcs|;
    assert !Shut(s) by { TotalZero(s.pcs, Pending); }
    hide Reaches, Run, Tidy;
    var a := s.(pcs := s.pcs + [DisLoad, DisLoad]);
    ReachNext(Step, from, s, Disable);
    ReachNext(Step, from, s.(pcs := s.pcs + [DisLoad]), Disable);
    assert s.pcs + [DisLoad] + [DisLoad] == a.pcs == At(a, n, DisLoad).pcs;
    Disables(from, a, n, o);
    Enables(from, Flag(a, o, false), n, o);
    var b := At(a, n, EnStore(o));
    assert a.allowed[o := false][o := true] == a.allowed && At(b, n + 1, DisLoad) == b;
    Disables(from, b, n + 1, o);
    var c := At(Flag(b, o, false), n + 1, Timer);
    t := StoresLate(from, c, g, n, o);
  }

  lemma StoresLate(from: State, c: State, g: nat, n: nat, o: nat) returns (t: State)
    requires Reaches(Step, from, c) && g < n && |c.pcs| == n + 2 && o < |c.allowed| && !c.allowed[o]
    requires c.pcs[g] == GetStore && c.pcs[n] == EnStore(o) && c.pcs[n + 1] == Timer
    requires forall h :: 0 <= h < n && h != g ==> c.pcs[h].Done?
    ensures Reaches(Step, from, t) && Stuck(t)
  {
    hide Reaches, Run;
    var d := At(MakeHost(c), g, Done);
    Go(from, c, g, d);
    assert At(d, n + 1, Timer) == d;
    FindsOpen(from, d, n + 1, |c.allowed|);
    var e := At(d, n + 1, Done);
    t := At(e.(entry := Some(o)), n, Done);
    Go(from, e, n, t);
  }

  /** Two first lookups find nothing, and one of them stores. */
  lemma OneOfTwoStores(from: State, s: State) returns (t: State, g: nat)
    requires Reaches(Step, from, s) && Tidy(s) && s.entry.None?
    ensures Reaches(Step, from, t) && Tidy(t) && t.entry.Some? && g < |t.pcs| && t.pcs[g].GetStore?
  {
    hide Reaches, Run;
    g := |s.pcs|;
    var a := s.(pcs := s.pcs + [GetLoad, GetLoad]);
    var b := s.(pcs := s.pcs + [GetStore, GetLoad]);
    var c := s.(pcs := s.pcs + [GetStore, GetStore]);
    t := MakeHost(s).(pcs := s.pcs + [GetStore, Done]);
    ReachNext(Step, from, s, GetHost);
    ReachNext(Step, from, s.(pcs := s.pcs + [GetLoad]), GetHost);
    assert s.pcs + [GetLoad] + [GetLoad] == a.pcs;
    assert a.pcs[g := GetStore] == b.pcs && b.pcs[g + 1 := GetStore] == c.pcs && c.pcs[g + 1 := Done] == t.pcs;
    Go(from, a, g, b);
    Go(from, b, g + 1, c);
    Go(from, c, g + 1, t);
  }

  ghost predicate CanStick(s: State) { exists t: State :: Reaches(Step, s, t) && Stuck(t) }

  /** As long as no lookup has stored late: the host is not stuck, and it can get stuck later if and only
      if it has not been looked up yet or a first lookup is still about to store. */
  lemma CanStickIff(s: State)
    requires Reaches(TidyStep, Fresh(), s)
    ensures !Stuck(s)
    ensures CanStick(s) <==> s.entry.None? || GetStore in s.pcs
  {
    AlwaysTidy(s);
    TidyIsNotStuck(s);
    hide Reaches, Run, Step, Tidy, Stuck;
    ReachSelf(Step, s);
    if s.entry.None? || GetStore in s.pcs {
      var t, g := s, 0;
      if s.entry.None? {
        t, g := OneOfTwoStores(s, s);
      } else {
        g :| 0 <= g < |s.pcs| && s.pcs[g] == GetStore;
      }
      t := Settle(s, t, g);
      t := LateStoreSticks(s, t, g);
    } else {
      assert Calm(s) by { TidyIsCalm(s); }
      CalmNeverSticks(s);
    }
  }

  lemma TidyIsCalm(s: State)
    requires Tidy(s) && s.entry.Some? && GetStore !in s.pcs
    ensures Calm(s)
  {
    TidyIsNotStuck(s);
  }

  lemma CalmNeverSticks(s: State)
    requires Calm(s)
    ensures !CanStick(s)
  {
    hide Reaches, Run, Step, Stuck;
    forall t: State | Reaches(Step, s, t) ensures !Stuck(t) {
      forall u: State, e: Event | Calm(u) && Step(u, e).Some? ensures Calm(Step(u, e).value) { CalmStays(u, e); }
      Invariance(Step, Calm, s, t);
    }
  }

  lemma AlwaysProper(s: State)
    requires Reaches(Step, Fresh(), s)
    ensures Proper(s)
  {
    hide Reaches, Run, Step;
    forall u: State, e: Event | Proper(u) && Step(u, e).Some? ensures Proper(Step(u, e).value) { StepIsProper(u, e); }
    Invariance(Step, Proper, Fresh(), s);
  }

  /** Late stores or not: in every reachable state in which everybody works on the object in the map and no
      first lookup is about to store, the host can get stuck if and only if it is. */
  lemma OnlyStuckSticks(s: State)
    requires Reaches(Step, Fresh(), s) && s.entry.Some? && GetStore !in s.pcs && InHand(s)
    ensures CanStick(s) <==> Stuck(s)
  {
    AlwaysProper(s);
    if Stuck(s) {
      ReachSelf(Step, s);
    } else {
      CalmNeverSticks(s);
    }
  }
}
