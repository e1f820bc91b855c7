/** The resolver's admission stack as a step system: a breaker with a CAS counter of requests in
    flight, around a lock-free semaphore whose capacity and use share one 64-bit word, with a
    bounded channel of wakeup tokens. Every atomic load, compare-and-swap, channel send and channel
    receive is one step, and any number of goroutines interleave. */
module AdmissionStack {
  import opened Runs

  const TWO32: int := 0x1_0000_0000
  const TWO64: int := 0x1_0000_0000_0000_0000

  type Word = w: int | 0 <= w < TWO64
  type Half = n: int | 0 <= n < TWO32
  type Pos = n: int | 0 < n witness 1

  /** `left<<32 | right` on uint64: the shift drops what leaves the word, and on a right part below
      2^32 the bitwise or of disjoint bits is a sum. That the right part fits is the caller's duty. */
  function Pack(left: nat, right: Half): Word {
    left % TWO32 * TWO32 + right
  }

  function Hi(w: Word): Half { w / TWO32 }

  function Lo(w: Word): Half { w % TWO32 }

  /** Packing and unpacking undo each other exactly when the left part fits 32 bits too. */
  lemma PackUnpack(left: nat, right: Half, w: Word)
    ensures Hi(Pack(left, right)) == left && Lo(Pack(left, right)) == right <==> left < TWO32
    ensures Pack(Hi(w), Lo(w)) == w
  {
    assert Hi(Pack(left, right)) == left % TWO32;
  }

  /** The words a compare-and-swap can carry: one seen with room, one seen with somebody inside. */
  type RoomyWord = w: Word | Lo(w) < Hi(w) witness TWO32
  type BusyWord = w: Word | Lo(w) > 0 witness 1

  /** Where a goroutine stands. The first group is one call of `Breaker.Maybe`, in program order;
      the last is one call of `semaphore.updateCapacity`. AcqWait lasts from having seen the semaphore
      full, whether or not the goroutine is already parked at its select; so a send may find nobody
      there even on a channel of size 0. */
  datatype Pc =
    | TryLoad | TryCas(cur: int) | Refused
    | AcqLoad | AcqCas(room: RoomyWord) | AcqWait
    | Running
    | RelLoad | RelCas(busy: BusyWord) | RelPoke
    | OutLoad | OutCas(cur: int) | Left
    | Panicked
    | UpdLoad(size: Half) | UpdCas(size: Half, seen: Word) | UpdPoke(left: Pos) | Updated

  /** `slots` is QueueDepth + MaxConcurrency and `chan` the size of the token channel. `lost` counts
      the decrements of `inFlight` whose single compare-and-swap failed, `peak` is the largest
      capacity set so far; neither is in the program, and no step depends on them. */
  datatype State = State(slots: nat, chan: nat, word: Word, tokens: nat, inFlight: int,
                         lost: nat, peak: Half, pcs: seq<Pc>)

  datatype Event =
    | Call                          // some goroutine calls Maybe
    | Resize(size: Half)            // some goroutine calls updateCapacity
    | Act(g: nat)                   // goroutine g takes its next atomic step
    | Cancel(g: nat)                // the context of g, at its select, is done
    | Handoff(g: nat, to: nat)      // g's token goes straight to a receiver at its select

  /** The state newSemaphore and NewBreaker leave behind: one token for each unit of capacity, as
      far as the channel holds them. */
  function Fresh(slots: nat, chan: nat, cap: Half): State {
    State(slots, chan, Pack(cap, 0), Min(cap, chan), 0, 0, cap, [])
  }

  function Cap(s: State): Half { Hi(s.word) }

  function InUse(s: State): Half { Lo(s.word) }

  function At(s: State, g: nat, pc: Pc): State
    requires g < |s.pcs|
  {
    s.(pcs := s.pcs[g := pc])
  }

  function Poked(left: nat): Pc { if left == 0 then Updated else UpdPoke(left) }

  /** A send that drops the token when the channel is full. */
  function Deposit(s: State): State {
    s.(tokens := if s.tokens < s.chan then s.tokens + 1 else s.tokens)
  }

  /** The next atomic step of goroutine g. None: it has returned, or it blocks at its select. */
  function Atomic(s: State, g: nat): Option<State>
    requires g < |s.pcs|
  {
    match s.pcs[g]
    case TryLoad =>
      Some(At(s, g, if s.inFlight >= s.slots then Refused else TryCas(s.inFlight)))
    case TryCas(cur) =>
      Some(if s.inFlight == cur then At(s.(inFlight := cur + 1), g, AcqLoad) else At(s, g, TryLoad))
    case AcqLoad =>
      Some(At(s, g, if Lo(s.word) >= Hi(s.word) then AcqWait else AcqCas(s.word)))
    case AcqCas(seen) =>
      Some(if s.word == seen then At(s.(word := Pack(Hi(seen), Lo(seen) + 1)), g, Running) else At(s, g, AcqLoad))
    case AcqWait =>
      if s.tokens > 0 then Some(At(s.(tokens := s.tokens - 1), g, AcqLoad)) else None
    case Running =>
      Some(At(s, g, RelLoad))
    case RelLoad =>
      Some(At(s, g, if Lo(s.word) == 0 then Panicked else RelCas(s.word)))
    case RelCas(seen) =>
      Some(if s.word == seen
           then At(s.(word := Pack(Hi(seen), Lo(seen) - 1)), g, if Lo(seen) - 1 < Hi(seen) then RelPoke else OutLoad)
           else At(s, g, RelLoad))
    case RelPoke =>
      Some(At(Deposit(s), g, OutLoad))
    case OutLoad =>
      Some(At(s, g, OutCas(s.inFlight)))
    case OutCas(cur) =>
      Some(if s.inFlight == cur then At(s.(inFlight := cur - 1), g, Left) else At(s.(lost := s.lost + 1), g, Left))
    case UpdLoad(size) =>
      Some(At(s, g, if Hi(s.word) == size then Updated else UpdCas(size, s.word)))
    case UpdCas(size, seen) =>
      Some(if s.word == seen
           then At(s.(word := Pack(size, Lo(seen)), peak := Max(s.peak, size)), g,
                   if size > Hi(seen) then Poked(size - Hi(seen)) else Updated)
           else At(s, g, UpdLoad(size)))
    case UpdPoke(left) =>
      Some(At(Deposit(s), g, Poked(left - 1)))
    case Refused | Left | Panicked | Updated => None
  }

  function Step(s: State, e: Event): Option<State> {
    match e
    case Call => Some(s.(pcs := s.pcs + [TryLoad]))
    case Resize(size) => Some(s.(pcs := s.pcs + [UpdLoad(size)]))
    case Act(g) => if g < |s.pcs| then Atomic(s, g) else None
    case Cancel(g) => if g < |s.pcs| && s.pcs[g] == AcqWait then Some(At(s, g, OutLoad)) else None
    case Handoff(g, to) =>
      if g < |s.pcs| && to < |s.pcs| && Owed(s.pcs[g]) > 0 && s.pcs[to] == AcqWait
      then Some(At(At(s, g, if s.pcs[g].RelPoke? then OutLoad else Poked(s.pcs[g].left - 1)), to, AcqLoad))
      else None
  }

  /** Outside newSemaphore the resolver never resizes: the steps it can take once built. */
  function BreakerStep(s: State, e: Event): Option<State> {
    if e.Resize? then None else Step(s, e)
  }

  // ---- What the invariants count ---------------------------------------------------------

  /** Between a successful acquire and the compare-and-swap of its release. */
  function Holding(pc: Pc): nat { if pc.Running? || pc.RelLoad? || pc.RelCas? then 1 else 0 }

  /** On the way to read the semaphore's word again, or to claim the room just seen. */
  function Retrying(pc: Pc): nat { if pc.AcqLoad? || pc.AcqCas? then 1 else 0 }

  /** Tokens a goroutine has still to send. */
  function Owed(pc: Pc): nat { if pc.RelPoke? then 1 else if pc.UpdPoke? then pc.left else 0 }

  /** Inside Maybe, from the increment of `inFlight` to its decrement. */
  function Inside(pc: Pc): nat {
    if Holding(pc) + Retrying(pc) > 0 || pc.AcqWait? || pc.RelPoke? || pc.OutLoad? || pc.OutCas? then 1 else 0
  }

  /** Inside, and not about to fail its decrement while `inFlight` stays at `n`. */
  function InTime(n: int): Pc -> nat {
    (pc: Pc) => if pc.OutCas? && pc.cur != n then 0 else Inside(pc)
  }

  /** The five counts of a state, or the change one goroutine makes to them. */
  datatype Counts = Counts(holding: int, retrying: int, owed: int, inside: int, inTime: int)

  function Weigh(pc: Pc, slots: nat): Counts {
    Counts(Holding(pc), Retrying(pc), Owed(pc), Inside(pc), InTime(slots)(pc))
  }

  function Tally(s: State): Counts {
    Counts(Total(s.pcs, Holding), Total(s.pcs, Retrying), Total(s.pcs, Owed),
           Total(s.pcs, Inside), Total(s.pcs, InTime(s.slots)))
  }

  function Moves(c: Counts, from: Counts, to: Counts): Counts {
    Counts(c.holding - from.holding + to.holding, c.retrying - from.retrying + to.retrying,
           c.owed - from.owed + to.owed, c.inside - from.inside + to.inside,
           c.inTime - from.inTime + to.inTime)
  }

  predicate Fits(w: Counts, c: Counts) {
    && 0 <= w.holding <= c.holding && 0 <= w.retrying <= c.retrying && 0 <= w.owed <= c.owed
    && 0 <= w.inside <= c.inside && 0 <= w.inTime <= c.inTime
  }

  // ---- The invariant ---------------------------------------------------------------------

  /** The semaphore: `inUse` counts its holders, and wakeups cover what is free, as far as the
      channel can hold them. */
  ghost predicate SemaphoreInv(s: State, c: Counts) {
    && s.tokens <= s.chan
    && InUse(s) == c.holding
    && InUse(s) <= s.peak
    && Cap(s) <= s.peak
    && s.tokens + c.owed + c.retrying + InUse(s) >= Min(s.chan, Cap(s))
  }

  /** The breaker: the counter is the number inside plus the decrements that were lost, and while it
      is at its limit somebody inside is still going to decrement it. */
  ghost predicate BreakerInv(s: State, c: Counts) {
    && s.inFlight == c.inside + s.lost
    && s.inFlight <= s.slots
    && (s.inFlight == s.slots > 0 ==> c.inTime > 0)
  }

  predicate Sound(s: State, pc: Pc) { !pc.Panicked? && (pc.TryCas? ==> pc.cur < s.slots) }

  ghost predicate Inv(s: State) {
    && SemaphoreInv(s, Tally(s))
    && BreakerInv(s, Tally(s))
    && forall g :: 0 <= g < |s.pcs| ==> Sound(s, s.pcs[g])
  }

  /** One goroutine moves: how every count changes. */
  lemma Moved(s: State, g: nat, pc: Pc)
    requires g < |s.pcs|
    ensures Tally(At(s, g, pc)) == Moves(Tally(s), Weigh(s.pcs[g], s.slots), Weigh(pc, s.slots))
    ensures Fits(Weigh(s.pcs[g], s.slots), Tally(s))
  {
    TotalUpdate(s.pcs, Holding, g, pc);
    TotalUpdate(s.pcs, Retrying, g, pc);
    TotalUpdate(s.pcs, Owed, g, pc);
    TotalUpdate(s.pcs, Inside, g, pc);
    TotalUpdate(s.pcs, InTime(s.slots), g, pc);
  }

  /** A goroutine starts: it counts for nothing yet. */
  lemma Started(s: State, pc: Pc)
    requires pc.TryLoad? || pc.UpdLoad?
    requires Inv(s)
    ensures Inv(s.(pcs := s.pcs + [pc]))
  {
    TotalAppend(s.pcs, Holding, pc);
    TotalAppend(s.pcs, Retrying, pc);
    TotalAppend(s.pcs, Owed, pc);
    TotalAppend(s.pcs, Inside, pc);
    TotalAppend(s.pcs, InTime(s.slots), pc);
  }

  /** A load, a send, a receive or a failed compare-and-swap leaves the word alone. */
  lemma QuietStepKeeps(s: State, g: nat, c: Counts)
    requires g < |s.pcs| && Atomic(s, g).Some? && Atomic(s, g).value.word == s.word
    requires !s.pcs[g].AcqCas? && !s.pcs[g].RelCas? && !s.pcs[g].UpdCas?
    requires SemaphoreInv(s, c) && Fits(Weigh(s.pcs[g], s.slots), c)
    ensures !Atomic(s, g).value.pcs[g].Panicked?
    ensures var t := Atomic(s, g).value;
      SemaphoreInv(t, Moves(c, Weigh(s.pcs[g], s.slots), Weigh(t.pcs[g], s.slots)))
  {
  }

  lemma AcquireKeeps(s: State, g: nat, c: Counts)
    requires g < |s.pcs| && s.pcs[g].AcqCas?
    requires SemaphoreInv(s, c) && Fits(Weigh(s.pcs[g], s.slots), c)
    ensures var t := Atomic(s, g).value;
      SemaphoreInv(t, Moves(c, Weigh(s.pcs[g], s.slots), Weigh(t.pcs[g], s.slots)))
  {
    var w := s.pcs[g].room;
    PackUnpack(Hi(w), Lo(w) + 1, 0);
  }

  lemma ReleaseKeeps(s: State, g: nat, c: Counts)
    requires g < |s.pcs| && s.pcs[g].RelCas?
    requires SemaphoreInv(s, c) && Fits(Weigh(s.pcs[g], s.slots), c)
    ensures var t := Atomic(s, g).value;
      SemaphoreInv(t, Moves(c, Weigh(s.pcs[g], s.slots), Weigh(t.pcs[g], s.slots)))
  {
    var w := s.pcs[g].busy;
    PackUnpack(Hi(w), Lo(w) - 1, 0);
  }

  lemma ResizeKeeps(s: State, g: nat, c: Counts)
    requires g < |s.pcs| && s.pcs[g].UpdCas?
    requires SemaphoreInv(s, c) && Fits(Weigh(s.pcs[g], s.slots), c)
    ensures var t := Atomic(s, g).value;
      SemaphoreInv(t, Moves(c, Weigh(s.pcs[g], s.slots), Weigh(t.pcs[g], s.slots)))
  {
    PackUnpack(s.pcs[g].size, Lo(s.pcs[g].seen), 0);
  }

  lemma ActKeepsBreaker(s: State, g: nat, c: Counts)
    requires g < |s.pcs| && Atomic(s, g).Some?
    requires BreakerInv(s, c) && Sound(s, s.pcs[g]) && Fits(Weigh(s.pcs[g], s.slots), c)
    requires !Atomic(s, g).value.pcs[g].Panicked?
    ensures var t := Atomic(s, g).value;
      BreakerInv(t, Moves(c, Weigh(s.pcs[g], s.slots), Weigh(t.pcs[g], s.slots)))
  {
  }

  /** One atomic step keeps both parts, over any counts that fit the goroutine that moves. */
  lemma ActKeepsCounts(s: State, g: nat, c: Counts)
    requires g < |s.pcs| && Atomic(s, g).Some?
    requires SemaphoreInv(s, c) && BreakerInv(s, c)
    requires Sound(s, s.pcs[g]) && Fits(Weigh(s.pcs[g], s.slots), c)
    ensures var t := Atomic(s, g).value;
      var d := Moves(c, Weigh(s.pcs[g], s.slots), Weigh(t.pcs[g], s.slots));
      SemaphoreInv(t, d) && BreakerInv(t, d) && Sound(t, t.pcs[g]) && t.slots == s.slots
  {
    match s.pcs[g] {
      case AcqCas(_) => AcquireKeeps(s, g, c);
      case RelCas(_) => ReleaseKeeps(s, g, c);
      case UpdCas(_, _) => ResizeKeeps(s, g, c);
      case _ => QuietStepKeeps(s, g, c);
    }
    ActKeepsBreaker(s, g, c);
  }

  lemma ActKeeps(s: State, g: nat)
    requires Inv(s) && g < |s.pcs| && Atomic(s, g).Some?
    ensures Inv(Atomic(s, g).value)
  {
    var t := Atomic(s, g).value;
    var pc := t.pcs[g];
    Moved(s, g, pc);
    ActKeepsCounts(s, g, Tally(s));
    assert t.pcs == At(s, g, pc).pcs;
  }

  lemma PaysToken(s: State, g: nat, pc: Pc)
    requires g < |s.pcs| && Owed(s.pcs[g]) > 0
    requires pc == if s.pcs[g].RelPoke? then OutLoad else Poked(s.pcs[g].left - 1)
    ensures Tally(At(s, g, pc)) == Tally(s).(owed := Tally(s).owed - 1)
  {
    Moved(s, g, pc);
    hide Tally;
  }

  lemma LooksAgain(s: State, to: nat)
    requires to < |s.pcs| && s.pcs[to].AcqWait?
    ensures Tally(At(s, to, AcqLoad)) == Tally(s).(retrying := Tally(s).retrying + 1)
  {
    Moved(s, to, AcqLoad);
    hide Tally;
  }

  /** A handoff pays one token and puts one waiting goroutine back to reading the word. */
  lemma HandoffTally(s: State, g: nat, to: nat)
    requires Step(s, Handoff(g, to)).Some?
    ensures Tally(Step(s, Handoff(g, to)).value)
            == Tally(s).(owed := Tally(s).owed - 1, retrying := Tally(s).retrying + 1)
  {
    hide Tally;
    var pc := if s.pcs[g].RelPoke? then OutLoad else Poked(s.pcs[g].left - 1);
    PaysToken(s, g, pc);
    LooksAgain(At(s, g, pc), to);
  }

  lemma HandoffKeeps(s: State, g: nat, to: nat)
    requires Inv(s) && Step(s, Handoff(g, to)).Some?
    ensures Inv(Step(s, Handoff(g, to)).value)
  {
    HandoffTally(s, g, to);
    hide Tally, Hi, Lo;
  }

  lemma CancelKeeps(s: State, g: nat)
    requires Inv(s) && Step(s, Cancel(g)).Some?
    ensures Inv(Step(s, Cancel(g)).value)
  {
    Moved(s, g, OutLoad);
    hide Tally, Hi, Lo;
  }

  lemma StepKeeps(s: State, e: Event)
    requires Inv(s) && Step(s, e).Some?
    ensures Inv(Step(s, e).value)
  {
    match e
    case Call => Started(s, TryLoad);
    case Resize(size) => Started(s, UpdLoad(size));
    case Act(g) => ActKeeps(s, g);
    case Cancel(g) => CancelKeeps(s, g);
    case Handoff(g, to) => HandoffKeeps(s, g, to);
  }

  lemma FreshInv(slots: nat, chan: nat, cap: Half)
    ensures Inv(Fresh(slots, chan, cap))
    ensures Cap(Fresh(slots, chan, cap)) == cap && InUse(Fresh(slots, chan, cap)) == 0
  {
    PackUnpack(cap, 0, 0);
  }

  /** Every state the stack can reach satisfies the invariant, whatever the sizes. */
  lemma AlwaysInv(slots: nat, chan: nat, cap: Half, s: State)
    requires Reaches(Step, Fresh(slots, chan, cap), s)
    ensures Inv(s)
  {
    FreshInv(slots, chan, cap);
    forall u: State, e: Event | Inv(u) && Step(u, e).Some? ensures Inv(Step(u, e).value) { StepKeeps(u, e); }
    Invariance(Step, Inv, Fresh(slots, chan, cap), s);
  }
}
