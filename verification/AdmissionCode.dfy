/** The breaker and its semaphore as an object, one method for each stretch of code that ends at an
    atomic operation or a channel operation. Each method is proved to be the step of the same
    goroutine in the step system, so every theorem about runs of the system is about this code. */
module AdmissionCode {
  import opened Runs
  import opened AdmissionStack

  class Breaker {
    const totalSlots: nat
    const queueSize: nat
    var inFlight: int               // atomic.Int64
    var state: Word                 // atomic.Uint64, capacity and use
    var queue: nat                  // tokens in the channel
    var pcs: seq<Pc>                // where each goroutine stands, with its local variables
    ghost var lost: nat
    ghost var peak: Half

    ghost function View(): State
      reads this
    {
      State(totalSlots, queueSize, state, queue, inFlight, lost, peak, pcs)
    }

    /** NewBreaker with newSemaphore: the capacity is set by updateCapacity, before anybody else can
        see the semaphore, and so puts its tokens into the channel. */
    constructor (queueDepth: nat, maxConcurrency: nat, initialCapacity: Half)
      ensures View() == Fresh(queueDepth + maxConcurrency, maxConcurrency, initialCapacity)
    {
      totalSlots, queueSize := queueDepth + maxConcurrency, maxConcurrency;
      inFlight, state, queue, pcs := 0, 0, 0, [];
      lost, peak := 0, 0;
      new;
      UpdateCapacity(initialCapacity);
    }

    /** updateCapacity with nobody interfering. */
    method UpdateCapacity(size: Half)
      requires queue <= queueSize
      modifies `state, `queue, `peak
      ensures Hi(state) == size && Lo(state) == old(Lo(state)) && state == Pack(size, old(Lo(state)))
      ensures queue == Min(queueSize, old(queue) + Max(0, size - old(Hi(state))))
      ensures peak == if size == old(Hi(state)) then old(peak) else Max(old(peak), size)
    {
      var seen := state;
      var capacity, inUse := Hi(seen), Lo(seen);
      PackUnpack(size, inUse, seen);
      if capacity == size {
        return;
      }
      peak := Max(peak, size);
      state := Pack(size, inUse);
      var i: nat := 0;
      while size > capacity && i < size - capacity
        modifies `queue
        invariant i <= Max(0, size - capacity)
        invariant queue == Min(queueSize, old(queue) + i)
      {
        Send();
        i := i + 1;
      }
    }

    /** `select { case queue <- struct{}{}: default: }` */
    method Send()
      modifies `queue
      ensures queue == if old(queue) < queueSize then old(queue) + 1 else old(queue)
    {
      if queue < queueSize {
        queue := queue + 1;
      }
    }

    method CompareAndSwapState(seen: Word, next: Word) returns (ok: bool)
      modifies `state
      ensures ok == (old(state) == seen)
      ensures state == if ok then next else old(state)
    {
      ok := state == seen;
      if ok {
        state := next;
      }
    }

    method CompareAndSwapInFlight(seen: int, next: int) returns (ok: bool)
      modifies `inFlight
      ensures ok == (old(inFlight) == seen)
      ensures inFlight == if ok then next else old(inFlight)
    {
      ok := inFlight == seen;
      if ok {
        inFlight := next;
      }
    }

    method Goto(g: nat, pc: Pc)
      requires g < |pcs|
      modifies `pcs
      ensures pcs == old(pcs)[g := pc]
    {
      pcs := pcs[g := pc];
    }

    method CallMaybe()
      modifies `pcs
      ensures Step(old(View()), Call) == Some(View())
    {
      pcs := pcs + [TryLoad];
    }

    method TryAcquireLoad(g: nat)
      requires g < |pcs| && pcs[g].TryLoad?
      modifies `pcs
      ensures Step(old(View()), Act(g)) == Some(View())
    {
      var cur := inFlight;
      if cur >= totalSlots {
        Goto(g, Refused);
      } else {
        Goto(g, TryCas(cur));
      }
    }

    method TryAcquireCas(g: nat)
      requires g < |pcs| && pcs[g].TryCas?
      modifies `inFlight, `pcs
      ensures Step(old(View()), Act(g)) == Some(View())
    {
      var cur := pcs[g].cur;
      var ok := CompareAndSwapInFlight(cur, cur + 1);
      Goto(g, if ok then AcqLoad else TryLoad);
    }

    method AcquireLoad(g: nat)
      requires g < |pcs| && pcs[g].AcqLoad?
      modifies `pcs
      ensures Step(old(View()), Act(g)) == Some(View())
    {
      var seen := state;
      var capacity, inUse := Hi(seen), Lo(seen);
      if inUse >= capacity {
        Goto(g, AcqWait);
      } else {
        Goto(g, AcqCas(seen));
      }
    }

    method AcquireCas(g: nat)
      requires g < |pcs| && pcs[g].AcqCas?
      modifies `state, `pcs
      ensures Step(old(View()), Act(g)) == Some(View())
    {
      var seen: RoomyWord := pcs[g].room;
      var capacity, inUse := Hi(seen), Lo(seen);
      var ok := CompareAndSwapState(seen, Pack(capacity, inUse + 1));
      Goto(g, if ok then Running else AcqLoad);
    }

    method AcquireReceive(g: nat)
      requires g < |pcs| && pcs[g].AcqWait? && queue > 0
      modifies `queue, `pcs
      ensures Step(old(View()), Act(g)) == Some(View())
    {
      queue := queue - 1;
      Goto(g, AcqLoad);
    }

    /** The other arm of the select: the error returns through the deferred releaseInFlightSlot. */
    method AcquireCancelled(g: nat)
      requires g < |pcs| && pcs[g].AcqWait?
      modifies `pcs
      ensures Step(old(View()), Cancel(g)) == Some(View())
    {
      Goto(g, OutLoad);
    }

    method EndThunk(g: nat)
      requires g < |pcs| && pcs[g].Running?
      modifies `pcs
      ensures Step(old(View()), Act(g)) == Some(View())
    {
      Goto(g, RelLoad);
    }

    method ReleaseLoad(g: nat)
      requires g < |pcs| && pcs[g].RelLoad?
      modifies `pcs
      ensures Step(old(View()), Act(g)) == Some(View())
    {
      var seen := state;
      if Lo(seen) == 0 {
        Goto(g, Panicked);
      } else {
        Goto(g, RelCas(seen));
      }
    }

    method ReleaseCas(g: nat)
      requires g < |pcs| && pcs[g].RelCas?
      modifies `state, `pcs
      ensures Step(old(View()), Act(g)) == Some(View())
    {
      var seen: BusyWord := pcs[g].busy;
      var capacity, inUse := Hi(seen), Lo(seen) - 1;
      var ok := CompareAndSwapState(seen, Pack(capacity, inUse));
      if ok {
        Goto(g, if inUse < capacity then RelPoke else OutLoad);
      } else {
        Goto(g, RelLoad);
      }
    }

    method ReleasePoke(g: nat)
      requires g < |pcs| && pcs[g].RelPoke?
      modifies `queue, `pcs
      ensures Step(old(View()), Act(g)) == Some(View())
    {
      Send();
      Goto(g, OutLoad);
    }

    method ReleaseSlotLoad(g: nat)
      requires g < |pcs| && pcs[g].OutLoad?
      modifies `pcs
      ensures Step(old(View()), Act(g)) == Some(View())
    {
      Goto(g, OutCas(inFlight));
    }

    /** The outcome of this compare-and-swap is dropped: the loop around it returns at once. */
    method ReleaseSlotCas(g: nat)
      requires g < |pcs| && pcs[g].OutCas?
      modifies `inFlight, `pcs, `lost
      ensures Step(old(View()), Act(g)) == Some(View())
    {
      var cur := pcs[g].cur;
      var ok := CompareAndSwapInFlight(cur, cur - 1);
      if !ok {
        lost := lost + 1;
      }
      Goto(g, Left);
    }

    method CallUpdateCapacity(size: Half)
      modifies `pcs
      ensures Step(old(View()), Resize(size)) == Some(View())
    {
      pcs := pcs + [UpdLoad(size)];
    }

    method UpdateLoad(g: nat)
      requires g < |pcs| && pcs[g].UpdLoad?
      modifies `pcs
      ensures Step(old(View()), Act(g)) == Some(View())
    {
      var seen, size := state, pcs[g].size;
      if Hi(seen) == size {
        Goto(g, Updated);
      } else {
        Goto(g, UpdCas(size, seen));
      }
    }

    method UpdateCas(g: nat)
      requires g < |pcs| && pcs[g].UpdCas?
      modifies `state, `pcs, `peak
      ensures Step(old(View()), Act(g)) == Some(View())
    {
      var seen, size := pcs[g].seen, pcs[g].size;
      var capacity, inUse := Hi(seen), Lo(seen);
      var ok := CompareAndSwapState(seen, Pack(size, inUse));
      if ok {
        peak := Max(peak, size);
        Goto(g, if size > capacity then Poked(size - capacity) else Updated);
      } else {
        Goto(g, UpdLoad(size));
      }
    }

    /** One round of the loop that sends a token for each unit of capacity gained. */
    method UpdatePoke(g: nat)
      requires g < |pcs| && pcs[g].UpdPoke?
      modifies `queue, `pcs
      ensures Step(old(View()), Act(g)) == Some(View())
    {
      var left: int := pcs[g].left;
      Send();
      Goto(g, Poked(left - 1));
    }

    /** Goroutine g runs on through its next atomic or channel operation; it does not when it has
        returned or blocks at its select. */
    method Resume(g: nat) returns (moved: bool)
      modifies this
      ensures moved ==> Step(old(View()), Act(g)) == Some(View())
      ensures !moved ==> Step(old(View()), Act(g)) == None && View() == old(View())
    {
      moved := g < |pcs| && !pcs[g].Refused? && !pcs[g].Left? && !pcs[g].Panicked? && !pcs[g].Updated?
               && (pcs[g].AcqWait? ==> queue > 0);
      if !moved {
        return;
      }
      match pcs[g]
      case TryLoad => TryAcquireLoad(g);
      case TryCas(_) => TryAcquireCas(g);
      case AcqLoad => AcquireLoad(g);
      case AcqCas(_) => AcquireCas(g);
      case AcqWait => AcquireReceive(g);
      case Running => EndThunk(g);
      case RelLoad => ReleaseLoad(g);
      case RelCas(_) => ReleaseCas(g);
      case RelPoke => ReleasePoke(g);
      case OutLoad => ReleaseSlotLoad(g);
      case OutCas(_) => ReleaseSlotCas(g);
      case UpdLoad(_) => UpdateLoad(g);
      case UpdCas(_, _) => UpdateCas(g);
      case UpdPoke(_) => UpdatePoke(g);
    }
  }
}
