/** One polling tick over all listed services: the direction each one's triggers give, and what the
    handlers then do to its target, its ScaledObject and its status. Triggers are oracles. */
module Tick {
  import opened Runs
  import P = ScaleProtocol

  datatype Health = HealthError | Unhealthy | Healthy
  datatype Query = QueryError | Below | NotBelow
  datatype Trigger = Trigger(known: bool, health: Health, query: Query)

  datatype Direction = ScaleUp | ScaleDown | NoScale
  datatype Verdict = Failed | Decided(direction: Direction)

  /** The trigger lets the service go to zero. */
  predicate Passes(t: Trigger) { t.known && t.health.Healthy? && t.query.Below? }

  predicate Clear(triggers: seq<Trigger>, k: int) { forall i :: 0 <= i < k <= |triggers| ==> Passes(triggers[i]) }

  /** What the first trigger that does not pass says. */
  function Stops(t: Trigger): Verdict {
    if !t.known then Failed
    else if t.health.HealthError? then Decided(NoScale)
    else if t.health.Unhealthy? || t.query.QueryError? then Failed
    else Decided(ScaleUp)
  }

  function Poll(triggers: seq<Trigger>): Verdict {
    if triggers == [] then Decided(ScaleDown)
    else if Passes(triggers[0]) then Poll(triggers[1..])
    else Stops(triggers[0])
  }

  /** Polling agrees with the first trigger that does not pass, wherever it is. */
  lemma {:induction false} PollIs(triggers: seq<Trigger>, k: nat)
    requires k <= |triggers| && Clear(triggers, k)
    requires k < |triggers| ==> !Passes(triggers[k])
    ensures Poll(triggers) == if k == |triggers| then Decided(ScaleDown) else Stops(triggers[k])
  {
    if k > 0 {
      assert Passes(triggers[0]);
      assert forall i :: 0 <= i < k - 1 ==> triggers[1..][i] == triggers[i + 1];
      PollIs(triggers[1..], k - 1);
    }
  }

  datatype Item = Item(key: nat, readable: bool, created: int, seconds: P.Seconds, triggers: seq<Trigger>,
                       lastUp: Option<int>, keda: bool, minReplicas: P.Pos)

  /** What the calls made for one service meet: two readings of the clock, the time of the scale-up
      patch, and how the API server answers each call. */
  datatype Calls = Calls(polled: int, handled: int, stamp: int,
                         timePatch: P.Reply, kedaPatch: P.Reply, get: P.Reply, patch: P.Reply)

  /** The service in the cluster. */
  datatype Target = Target(replicas: nat, paused: Option<bool>, lastUp: Option<int>)

  function VerdictFor(item: Item, polled: int): Verdict {
    if item.triggers == [] then Failed
    else if item.created + P.ResolveCooldown(item.seconds) > polled then Decided(NoScale)
    else Poll(item.triggers)
  }

  function Scale(t: Target, want: nat, calls: Calls): Target {
    if !calls.get.Ok? || P.Scaled(t.replicas, want) || calls.patch.Refused? then t else t.(replicas := want)
  }

  function SetPaused(t: Target, item: Item, paused: bool, calls: Calls): Target {
    if item.keda && !calls.kedaPatch.Refused? then t.(paused := Some(paused)) else t
  }

  function ToZero(t: Target, item: Item, calls: Calls): Target {
    if item.lastUp.Some? && calls.handled - item.lastUp.value < P.ResolveCooldown(item.seconds) then t
    else
      var u := SetPaused(t, item, true, calls);
      if item.keda && !calls.kedaPatch.Ok? then u else Scale(u, 0, calls)
  }

  function FromZero(t: Target, item: Item, calls: Calls): Target {
    var timed := if calls.timePatch.Refused? then t else t.(lastUp := Some(calls.stamp));
    var u := SetPaused(timed, item, false, calls);
    if item.keda && !calls.kedaPatch.Ok? then u else Scale(u, item.minReplicas, calls)
  }

  /** What a tick does to one service, as if it were the only one. */
  function Alone(t: Target, item: Item, calls: Calls): Target {
    if !item.readable then t
    else match VerdictFor(item, calls.polled)
      case Decided(ScaleDown) => ToZero(t, item, calls)
      case Decided(ScaleUp) => FromZero(t, item, calls)
      case _ => t
  }

  /** The cooldown of an item, in nanoseconds. */
  function Cool(item: Item): int { (if item.seconds == 0 then 900 else item.seconds) * 1_000_000_000 }

  /** A tick takes a service down only if it has triggers, is old enough, all its triggers are created,
      healthy and below their threshold, the cooldown since its listed scale-up is over, and KEDA, if
      it manages the service, has been paused; then it takes it to 0. When no call fails the condition
      is exact. */
  lemma DownIff(t: Target, item: Item, calls: Calls)
    requires t.replicas > 0
    ensures var after, cool := Alone(t, item, calls), Cool(item);
      var idle := item.readable && item.triggers != [] && item.created + cool <= calls.polled
                  && Clear(item.triggers, |item.triggers|)
                  && (item.lastUp.Some? ==> item.lastUp.value + cool <= calls.handled);
      && (after.replicas < t.replicas ==> idle && after.replicas == 0 && (item.keda ==> after.paused == Some(true)))
      && (calls.kedaPatch.Ok? && calls.get.Ok? && !calls.patch.Refused? ==> (after.replicas < t.replicas <==> idle))
  {
    var k := FirstStop(item.triggers);
  }

  /** The first trigger that does not pass is created and healthy, and not below its threshold. */
  predicate Busy(triggers: seq<Trigger>) {
    exists k :: 0 <= k < |triggers| && FirstAt(triggers, k)
                && triggers[k].known && triggers[k].health.Healthy? && triggers[k].query.NotBelow?
  }

  /** A tick takes a service up only if it is readable and old enough and the first trigger that does not
      pass is not below its threshold; then from below its minimum to it, with KEDA unpaused if it manages
      the service. When no call fails the condition is exact. The recorded time changes in no other tick,
      and in such a one always, unless the patch is refused. */
  lemma UpIff(t: Target, item: Item, calls: Calls)
    ensures var after := Alone(t, item, calls);
      var busy := item.readable && item.created + Cool(item) <= calls.polled && Busy(item.triggers);
      && (after.replicas > t.replicas ==>
            busy && t.replicas < item.minReplicas && after.replicas == item.minReplicas
            && (item.keda ==> after.paused == Some(false)))
      && (calls.kedaPatch.Ok? && calls.get.Ok? && !calls.patch.Refused? ==>
            (after.replicas > t.replicas <==> busy && t.replicas < item.minReplicas))
      && after.lastUp == (if busy && !calls.timePatch.Refused? then Some(calls.stamp) else t.lastUp)
  {
    var k := FirstStop(item.triggers);
    BusyAt(item.triggers, k);
  }

  lemma BusyAt(triggers: seq<Trigger>, k: nat)
    requires k <= |triggers| && Clear(triggers, k) && (k < |triggers| ==> !Passes(triggers[k]))
    ensures Busy(triggers) <==> k < |triggers| && triggers[k].known && triggers[k].health.Healthy? && triggers[k].query.NotBelow?
  {
    if k < |triggers| {
      FirstIsOne(triggers, k);
    }
  }

  /** The pause flag: a tick sets it only for a service under KEDA, to true when the service is idle and
      cooled down and to false when it is busy, and in both cases whatever becomes of the replicas. */
  lemma PausedIff(t: Target, item: Item, calls: Calls)
    ensures var after := Alone(t, item, calls);
      var polls := item.readable && item.triggers != [] && item.created + Cool(item) <= calls.polled;
      var idle := polls && Clear(item.triggers, |item.triggers|)
                  && (item.lastUp.Some? ==> item.lastUp.value + Cool(item) <= calls.handled);
      after.paused == if !item.keda || calls.kedaPatch.Refused? then t.paused
                      else if idle then Some(true)
                      else if polls && Busy(item.triggers) then Some(false)
                      else t.paused
  {
    var k := FirstStop(item.triggers);
    BusyAt(item.triggers, k);
  }

  /** A tick changes replicas only through a write that was not refused, after a get and, if KEDA manages
      the service, after a pause or unpause that was acknowledged and fits: a failed one leaves the
      replicas as they are, in both directions. */
  lemma FailedPauseKeepsReplicas(t: Target, item: Item, calls: Calls)
    ensures var after := Alone(t, item, calls);
      after.replicas != t.replicas ==>
        && calls.get.Ok? && !calls.patch.Refused?
        && (item.keda ==> calls.kedaPatch.Ok? && after.paused == Some(after.replicas == 0))
  {
    hide VerdictFor, Poll;
  }

  lemma FirstStop(triggers: seq<Trigger>) returns (k: nat)
    ensures k <= |triggers| && Clear(triggers, k) && (k < |triggers| ==> !Passes(triggers[k]))
    ensures Poll(triggers) == if k == |triggers| then Decided(ScaleDown) else Stops(triggers[k])
    ensures k == |triggers| <==> Clear(triggers, |triggers|)
  {
    k := 0;
    while k < |triggers| && Passes(triggers[k])
      invariant k <= |triggers| && Clear(triggers, k)
    {
      k := k + 1;
    }
    PollIs(triggers, k);
  }

  predicate OldEnough(item: Item, polled: int) { item.created + P.ResolveCooldown(item.seconds) <= polled }

  /** Trigger k is the first that does not pass. */
  predicate FirstAt(triggers: seq<Trigger>, k: int) {
    0 <= k < |triggers| && Clear(triggers, k) && !Passes(triggers[k])
  }

  lemma FirstIsOne(triggers: seq<Trigger>, k: int)
    requires FirstAt(triggers, k)
    ensures !Clear(triggers, |triggers|) && forall j :: FirstAt(triggers, j) ==> j == k
  {
  }

  /** calculateScaleDirection: the loop over the triggers. */
  method CalculateScaleDirection(item: Item, polled: int) returns (verdict: Verdict)
    ensures verdict == VerdictFor(item, polled)
    ensures verdict == Decided(ScaleDown)
            <==> item.triggers != [] && OldEnough(item, polled) && Clear(item.triggers, |item.triggers|)
    ensures verdict == Decided(ScaleUp)
            <==> OldEnough(item, polled)
                 && exists k :: FirstAt(item.triggers, k) && item.triggers[k].known
                                && item.triggers[k].health.Healthy? && item.triggers[k].query.NotBelow?
    ensures verdict == Decided(NoScale)
            <==> item.triggers != []
                 && (!OldEnough(item, polled)
                     || exists k :: FirstAt(item.triggers, k) && item.triggers[k].known
                                    && item.triggers[k].health.HealthError?)
  {
    if |item.triggers| == 0 {
      return Failed;
    }
    if item.created + P.ResolveCooldown(item.seconds) > polled {
      return Decided(NoScale);
    }
    for i := 0 to |item.triggers|
      invariant Clear(item.triggers, i)
    {
      var trigger := item.triggers[i];
      if !Passes(trigger) {
        PollIs(item.triggers, i);
        FirstIsOne(item.triggers, i);
      }
      if !trigger.known {
        return Failed;
      }
      if trigger.health.HealthError? {
        return Decided(NoScale);
      }
      if !trigger.health.Healthy? {
        return Failed;
      }
      if trigger.query.QueryError? {
        return Failed;
      }
      if trigger.query.NotBelow? {
        return Decided(ScaleUp);
      }
    }
    PollIs(item.triggers, |item.triggers|);
    return Decided(ScaleDown);
  }

  class ScaleHandler {
    var cluster: map<nat, Target>

    /** ScaleDeployment or ScaleArgoRollout under the service's lock. */
    method ScaleTarget(key: nat, want: nat, calls: Calls) returns (failed: bool)
      requires key in cluster
      modifies this
      ensures cluster == old(cluster)[key := Scale(old(cluster)[key], want, calls)]
    {
      var target := cluster[key];
      failed := !calls.get.Ok?;
      if failed || target.replicas == want || (want > 0 && target.replicas > want) {
        return;
      }
      if !calls.patch.Refused? {
        cluster := cluster[key := target.(replicas := want)];
      }
      failed := !calls.patch.Ok?;
    }

    method UpdateKedaPausedState(key: nat, paused: bool, calls: Calls) returns (failed: bool)
      requires key in cluster
      modifies this
      ensures cluster == if calls.kedaPatch.Refused? then old(cluster)
                         else old(cluster)[key := old(cluster)[key].(paused := Some(paused))]
      ensures failed == !calls.kedaPatch.Ok?
    {
      if !calls.kedaPatch.Refused? {
        cluster := cluster[key := cluster[key].(paused := Some(paused))];
      }
      failed := !calls.kedaPatch.Ok?;
    }

    method HandleScaleToZero(item: Item, calls: Calls) returns (failed: bool)
      requires item.key in cluster
      modifies this
      ensures cluster == old(cluster)[item.key := ToZero(old(cluster)[item.key], item, calls)]
    {
      failed := false;
      if item.lastUp.Some? && calls.handled - item.lastUp.value < P.ResolveCooldown(item.seconds) {
        return;
      }
      if item.keda {
        failed := UpdateKedaPausedState(item.key, true, calls);
        if failed {
          return;
        }
      }
      failed := ScaleTarget(item.key, 0, calls);
    }

    method HandleScaleFromZero(item: Item, calls: Calls) returns (failed: bool)
      requires item.key in cluster
      modifies this
      ensures cluster == old(cluster)[item.key := FromZero(old(cluster)[item.key], item, calls)]
    {
      if !calls.timePatch.Refused? {
        cluster := cluster[item.key := cluster[item.key].(lastUp := Some(calls.stamp))];
      }
      if item.keda {
        failed := UpdateKedaPausedState(item.key, false, calls);
        if failed {
          return;
        }
      }
      failed := ScaleTarget(item.key, item.minReplicas, calls);
    }

    /** A tick over services with distinct targets does to each what it would do to it alone, whatever
        fails for the others and in whatever order they are listed, and touches nothing else. */
    method CheckAndScale(items: seq<Item>, calls: seq<Calls>)
      requires |calls| == |items| && forall i :: 0 <= i < |items| ==> items[i].key in cluster
      requires forall i, j :: 0 <= i < j < |items| ==> items[i].key != items[j].key
      modifies this
      ensures cluster.Keys == old(cluster).Keys
      ensures forall i :: 0 <= i < |items| ==>
                cluster[items[i].key] == Alone(old(cluster)[items[i].key], items[i], calls[i])
      ensures forall key :: key in cluster && (forall i :: 0 <= i < |items| ==> items[i].key != key)
                            ==> cluster[key] == old(cluster)[key]
    {
      for n := 0 to |items|
        invariant cluster.Keys == old(cluster).Keys
        invariant forall i :: 0 <= i < n ==>
                    cluster[items[i].key] == Alone(old(cluster)[items[i].key], items[i], calls[i])
        invariant forall key :: key in cluster && (forall i :: 0 <= i < n ==> items[i].key != key)
                                ==> cluster[key] == old(cluster)[key]
      {
        var item := items[n];
        if item.readable {
          var verdict := CalculateScaleDirection(item, calls[n].polled);
          var failed := false;
          if verdict == Decided(ScaleDown) {
            failed := HandleScaleToZero(item, calls[n]);
          } else if verdict == Decided(ScaleUp) {
            failed := HandleScaleFromZero(item, calls[n]);
          }
        }
      }
    }
  }
}
