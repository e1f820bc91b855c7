/** Switching one ElastiService between proxy and serve mode, under its lock: the private service, the
    EndpointSlice that points its public service at the resolver, and the status. Any call to the API
    server may fail, also after it took effect. */
module ModeSwitch {
  import opened Runs
  import P = ScaleProtocol

  datatype Port = Port(name: string, port: nat, nodePort: nat)

  datatype Service = Service(clusterIP: string, ports: seq<Port>, selector: string)

  datatype Endpoint = Endpoint(addresses: seq<string>)

  datatype Mode = Serve | Proxy

  /** Part of a cluster. `resolver` holds the endpoints of each of the resolver's own slices, `slice`
      the addresses of the slice that points at the resolver, `status` the mode shown. */
  datatype World = World(publicSvc: Option<Service>, privateSvc: Option<Service>,
                         resolver: seq<seq<Endpoint>>, slice: Option<seq<string>>, status: Option<Mode>)

  /** The answers to the calls one switch can make. A get that is not Ok is an error other than
      NotFound. `cached`: the mode in the status that is read for the status patch, which comes from a
      cache of any age. */
  datatype Calls = Calls(getCrd: P.Reply, getPublic: P.Reply, getPrivate: P.Reply, own: P.Reply,
                         createPrivate: P.Reply, watch: P.Reply, listResolver: P.Reply, getSlice: P.Reply,
                         writeSlice: P.Reply, deleteSlice: P.Reply, getStatus: P.Reply,
                         cached: Option<Mode>, patchStatus: P.Reply)

  /** The public service without its cluster IP and node ports. */
  function PrivateCopy(s: Service): Service {
    Service("", seq(|s.ports|, i requires 0 <= i < |s.ports| => s.ports[i].(nodePort := 0)), s.selector)
  }

  function Addresses(endpoints: seq<Endpoint>): seq<string> {
    if endpoints == [] then []
    else Addresses(endpoints[..|endpoints| - 1]) + endpoints[|endpoints| - 1].addresses
  }

  function AllAddresses(slices: seq<seq<Endpoint>>): seq<string> {
    if slices == [] then [] else AllAddresses(slices[..|slices| - 1]) + Addresses(slices[|slices| - 1])
  }

  /** An address is among them exactly when some endpoint of some slice has it. */
  lemma {:induction false} AllAddressesHas(slices: seq<seq<Endpoint>>, ip: string)
    ensures ip in AllAddresses(slices)
            <==> exists i, j :: 0 <= i < |slices| && 0 <= j < |slices[i]| && ip in slices[i][j].addresses
  {
    if slices != [] {
      var n := |slices| - 1;
      AllAddressesHas(slices[..n], ip);
      AddressesHas(slices[n], ip);
      if ip in AllAddresses(slices[..n]) {
        var i, j :| 0 <= i < n && 0 <= j < |slices[..n][i]| && ip in slices[..n][i][j].addresses;
        assert ip in slices[i][j].addresses;
      } else if ip in Addresses(slices[n]) {
        var j :| 0 <= j < |slices[n]| && ip in slices[n][j].addresses;
        assert ip in slices[n][j].addresses;
      } else {
        forall i, j | 0 <= i < |slices| && 0 <= j < |slices[i]| ensures ip !in slices[i][j].addresses {
          if i < n {
            assert slices[..n][i] == slices[i];
          }
        }
      }
    }
  }

  lemma {:induction false} AddressesHas(endpoints: seq<Endpoint>, ip: string)
    ensures ip in Addresses(endpoints) <==> exists j :: 0 <= j < |endpoints| && ip in endpoints[j].addresses
  {
    if endpoints != [] {
      var n := |endpoints| - 1;
      AddressesHas(endpoints[..n], ip);
      assert forall j :: 0 <= j < n ==> endpoints[..n][j] == endpoints[j];
      if ip in Addresses(endpoints[..n]) {
        var j :| 0 <= j < n && ip in endpoints[..n][j].addresses;
        assert ip in endpoints[j].addresses;
      } else if ip in endpoints[n].addresses {
        assert ip in endpoints[n].addresses;
      }
    }
  }

  // ---- The switch as a function of the world ---------------------------------------------

  /** checkAndCreatePrivateService. A failed get is only logged, and then the create decides. */
  function EnsurePrivate(w: World, svc: Service, calls: Calls): (World, bool) {
    if calls.getPrivate.Ok? && w.privateSvc.Some? then (w, true)
    else if !calls.own.Ok? || w.privateSvc.Some? then (w, false)
    else if calls.createPrivate.Refused? then (w, false)
    else (w.(privateSvc := Some(PrivateCopy(svc))), calls.createPrivate.Ok?)
  }

  /** createOrUpdateEndpointsliceToResolver. */
  function WriteSlice(w: World, calls: Calls): World {
    var ips := AllAddresses(w.resolver);
    if !calls.listResolver.Ok? || ips == [] || !calls.getSlice.Ok? || calls.writeSlice.Refused? then w
    else w.(slice := Some(ips))
  }

  function EnableProxy(w: World, calls: Calls): World {
    if !calls.getPublic.Ok? || w.publicSvc.None? then w
    else
      var (v, ok) := EnsurePrivate(w, w.publicSvc.value, calls);
      if !ok || !calls.watch.Ok? then v else WriteSlice(v, calls)
  }

  function EnableServe(w: World, calls: Calls): World {
    if !calls.getSlice.Ok? || calls.deleteSlice.Refused? then w else w.(slice := None)
  }

  /** updateCRDStatus. The patch holds what differs from the status as read, so it leaves the mode out
      when that showed it already. */
  function UpdateStatus(w: World, mode: Mode, calls: Calls): World {
    if !calls.getStatus.Ok? || calls.cached == Some(mode) || calls.patchStatus.Refused? then w
    else w.(status := Some(mode))
  }

  function Switched(w: World, mode: Mode, calls: Calls): World {
    if !calls.getCrd.Ok? then w
    else UpdateStatus(if mode.Serve? then EnableServe(w, calls) else EnableProxy(w, calls), mode, calls)
  }

  // ---- Events of the scale target --------------------------------------------------------

  datatype Event =
    | DeploymentChanged(replicas: nat, ready: nat)
    | RolloutChanged(readyReplicas: nat, healthy: bool)

  /** The mode an event asks for, if any. */
  function Decision(e: Event): Option<Mode> {
    match e
    case DeploymentChanged(replicas, ready) =>
      if replicas == 0 then Some(Proxy) else if ready > 0 then Some(Serve) else None
    case RolloutChanged(ready, healthy) =>
      if ready == 0 then Some(Proxy) else if healthy then Some(Serve) else None
  }

  /** One thing that happens: the target changes and the event is handled, or the resolver's own
      endpoints change. */
  datatype Happening = Target(event: Event, calls: Calls) | ResolverMoves(resolver: seq<seq<Endpoint>>)

  function Next(w: World, h: Happening): Option<World> {
    match h
    case Target(event, calls) =>
      Some(if Decision(event).Some? then Switched(w, Decision(event).value, calls) else w)
    case ResolverMoves(resolver) => Some(w.(resolver := resolver))
  }

  // ---- What every history keeps ----------------------------------------------------------

  /** Traffic is sent to the resolver only where it can get out again: the slice exists only together
      with the private service, and the private service is a copy of the public one. */
  predicate Routable(w: World) {
    && (w.slice.Some? ==> w.privateSvc.Some?)
    && (w.privateSvc.Some? && w.publicSvc.Some? ==> Mirrors(w.privateSvc.value, w.publicSvc.value))
  }

  /** The private service selects the same pods and has the same ports, on other addresses: no cluster IP
      and no node ports of its own are asked for. */
  predicate Mirrors(private: Service, public: Service) {
    && private.selector == public.selector && private.clusterIP == "" && |private.ports| == |public.ports|
    && forall i :: 0 <= i < |private.ports| ==>
         && private.ports[i].name == public.ports[i].name && private.ports[i].port == public.ports[i].port
         && private.ports[i].nodePort == 0
  }

  /** In every history of events, whatever calls fail. */
  lemma SliceNeedsPrivateService(w0: World, w: World)
    requires Routable(w0) && Reaches(Next, w0, w)
    ensures Routable(w)
  {
    hide Reaches, Run, AllAddresses;
    Invariance(Next, Routable, w0, w);
  }

  predicate AllOk(c: Calls) {
    && c.getCrd.Ok? && c.getPublic.Ok? && c.getPrivate.Ok? && c.own.Ok? && c.createPrivate.Ok? && c.watch.Ok?
    && c.listResolver.Ok? && c.getSlice.Ok? && c.writeSlice.Ok? && c.deleteSlice.Ok? && c.getStatus.Ok?
    && c.patchStatus.Ok?
  }

  /** A Deployment with no replicas left, or a Rollout with none ready. */
  predicate AsksProxy(e: Event) {
    (e.DeploymentChanged? && e.replicas == 0) || (e.RolloutChanged? && e.readyReplicas == 0)
  }

  /** A Deployment with ready replicas, or a healthy Rollout with some. */
  predicate AsksServe(e: Event) {
    || (e.DeploymentChanged? && e.replicas > 0 && e.ready > 0)
    || (e.RolloutChanged? && e.readyReplicas > 0 && e.healthy)
  }

  predicate Decisive(h: Happening) { h.Target? && (AsksProxy(h.event) || AsksServe(h.event)) }

  function Asked(h: Happening): Mode
    requires Decisive(h)
  {
    if AsksProxy(h.event) then Proxy else Serve
  }

  /** A decisive event switches to the mode its numbers ask for, and any other event of the target changes
      nothing. */
  lemma EventDecides(w: World, h: Happening)
    requires h.Target?
    ensures Next(w, h) == Some(if Decisive(h) then Switched(w, Asked(h), h.calls) else w)
  {
  }

  /** The resolver's endpoints are those of the last event about them, or those at the start. */
  lemma {:induction false} ResolverIs(w: World, hs: seq<Happening>, j: int)
    requires -1 <= j < |hs| && (j >= 0 ==> hs[j].ResolverMoves?)
    requires forall i :: j < i < |hs| ==> !hs[i].ResolverMoves?
    ensures Run(Next, w, hs).Some?
    ensures Run(Next, w, hs).value.resolver == if j >= 0 then hs[j].resolver else w.resolver
  {
    Continues(w, hs);
    var n := |hs| - 1;
    if j < n {
      ResolverIs(w, hs[..n], j);
    } else if j >= 0 {
      Continues(w, hs[..n]);
    }
  }

  lemma {:induction false} Continues(w: World, hs: seq<Happening>)
    ensures Run(Next, w, hs).Some? && Run(Next, w, hs).value.publicSvc == w.publicSvc
  {
    if hs != [] {
      Continues(w, hs[..|hs| - 1]);
    }
  }

  /** Whatever failed before, the numbers of the last decisive event settle the slice, if no call of that
      event fails and the resolver has an address then: with no replicas the slice lists the resolver's
      addresses as they were at that event, with ready ones it is absent. The status shows the mode,
      unless the cache showed it too early. `j` is the last event about the resolver before that. */
  lemma {:induction false} LastDecisionRules(w: World, hs: seq<Happening>, k: nat, j: int)
    requires k < |hs| && Decisive(hs[k]) && forall i :: k < i < |hs| ==> !Decisive(hs[i])
    requires -1 <= j < k && (j >= 0 ==> hs[j].ResolverMoves?) && forall i :: j < i < k ==> !hs[i].ResolverMoves?
    requires w.publicSvc.Some? && AllOk(hs[k].calls)
    requires AllAddresses(if j >= 0 then hs[j].resolver else w.resolver) != []
    ensures Run(Next, w, hs).Some? && Run(Next, w, hs[..k]).Some?
    ensures var before, after := Run(Next, w, hs[..k]).value, Run(Next, w, hs).value;
      && (AsksProxy(hs[k].event) ==> after.slice == Some(AllAddresses(if j >= 0 then hs[j].resolver else w.resolver)))
      && (AsksServe(hs[k].event) ==> after.slice == None)
      && (after.status == Some(Asked(hs[k])) <==>
            hs[k].calls.cached != Some(Asked(hs[k])) || before.status == Some(Asked(hs[k])))
  {
    var n := |hs| - 1;
    Continues(w, hs[..k]);
    if k < n {
      assert hs[..n][..k] == hs[..k];
      LastDecisionRules(w, hs[..n], k, j);
    } else {
      hide Next, AllOk, AllAddresses;
      ResolverIs(w, hs[..k], j);
      DecisionTakesEffect(Run(Next, w, hs[..k]).value, hs[k]);
    }
  }

  lemma DecisionTakesEffect(w: World, h: Happening)
    requires Decisive(h) && w.publicSvc.Some? && AllOk(h.calls) && AllAddresses(w.resolver) != []
    ensures Next(w, h).Some?
    ensures var v := Next(w, h).value;
      && v.slice == (if AsksProxy(h.event) then Some(AllAddresses(w.resolver)) else None)
      && (v.status == Some(Asked(h)) <==> h.calls.cached != Some(Asked(h)) || w.status == Some(Asked(h)))
  {
    EventDecides(w, h);
    SwitchLeaves(w, Asked(h), h.calls);
    hide Switched, AllAddresses, Decision;
  }

  // ---- Status and slice ------------------------------------------------------------------

  /** The status shows proxy exactly when traffic is sent to the resolver. */
  predicate Agrees(w: World) { w.slice.Some? <==> w.status == Some(Proxy) }

  predicate PrivateReady(w: World, calls: Calls) {
    if w.privateSvc.Some? then calls.getPrivate.Ok? else calls.own.Ok? && calls.createPrivate.Ok?
  }

  /** A switch to proxy gets as far as writing the slice. */
  predicate SliceWritten(w: World, calls: Calls) {
    && calls.getPublic.Ok? && w.publicSvc.Some? && PrivateReady(w, calls) && calls.watch.Ok?
    && calls.listResolver.Ok? && AllAddresses(w.resolver) != [] && calls.getSlice.Ok? && !calls.writeSlice.Refused?
  }

  predicate SliceDeleted(calls: Calls) { calls.getSlice.Ok? && !calls.deleteSlice.Refused? }

  predicate StatusWritten(mode: Mode, calls: Calls) {
    calls.getStatus.Ok? && calls.cached != Some(mode) && !calls.patchStatus.Refused?
  }

  /** Slice and status agree after a switch if and only if its guards let both or neither through, as far
      as they change anything. */
  lemma SwitchAgreesIff(w: World, mode: Mode, calls: Calls)
    ensures Agrees(Switched(w, mode, calls)) <==>
              if !calls.getCrd.Ok? then Agrees(w)
              else if mode.Proxy?
              then (w.slice.Some? || SliceWritten(w, calls)) == (w.status == Some(Proxy) || StatusWritten(mode, calls))
              else (w.slice.Some? && !SliceDeleted(calls)) == (w.status == Some(Proxy) && !StatusWritten(mode, calls))
  {
    hide AllAddresses;
  }

  /** What a switch leaves behind, part by part, from the answers to its calls. */
  lemma SwitchLeaves(w: World, mode: Mode, calls: Calls)
    ensures var v := Switched(w, mode, calls);
      && v.publicSvc == w.publicSvc && v.resolver == w.resolver
      && v.slice == (if calls.getCrd.Ok? && mode.Proxy? && SliceWritten(w, calls) then Some(AllAddresses(w.resolver))
                     else if calls.getCrd.Ok? && mode.Serve? && SliceDeleted(calls) then None else w.slice)
      && v.status == (if calls.getCrd.Ok? && StatusWritten(mode, calls) then Some(mode) else w.status)
      && (v.privateSvc != w.privateSvc <==>
            && calls.getCrd.Ok? && mode.Proxy? && calls.getPublic.Ok? && w.publicSvc.Some? && w.privateSvc.None?
            && calls.own.Ok? && !calls.createPrivate.Refused?)
      && (v.privateSvc != w.privateSvc ==> v.privateSvc.Some? && Mirrors(v.privateSvc.value, w.publicSvc.value))
  {
    hide AllAddresses;
  }

  /** A switch that has something to change changes only one of the two. */
  predicate HalfDone(w: World, h: Happening) {
    && Decisive(h) && h.calls.getCrd.Ok?
    && var mode := Asked(h);
       if mode.Proxy? then w.slice.None? && SliceWritten(w, h.calls) != StatusWritten(mode, h.calls)
       else w.slice.Some? && SliceDeleted(h.calls) != StatusWritten(mode, h.calls)
  }

  lemma AgreesStepIff(w: World, h: Happening)
    requires Agrees(w)
    ensures Agrees(Next(w, h).value) <==> !HalfDone(w, h)
  {
    if Decisive(h) {
      EventDecides(w, h);
      hide Switched, SliceWritten, SliceDeleted, StatusWritten;
      SwitchAgreesIff(w, Asked(h), h.calls);
    }
  }

  /** In any history that begins in agreement, status and slice agree throughout if and only if no event
      of it is half done. */
  lemma AgreesAlwaysIff(w: World, hs: seq<Happening>)
    requires Agrees(w)
    ensures Run(Next, w, hs).Some?
    ensures Always(Next, w, hs, Agrees) <==> !Ever(Next, w, hs, HalfDone)
  {
    Continues(w, hs);
    hide Run, Always, Ever, Agrees, HalfDone;
    forall u: World, h: Happening | Agrees(u) ensures Agrees(Next(u, h).value) <==> !HalfDone(u, h) {
      AgreesStepIff(u, h);
    }
    AlwaysIff(Next, w, hs, u => true, Agrees, HalfDone);
  }

  // ---- The reconciler's code -------------------------------------------------------------

  class Reconciler {
    var world: World

    /** getIPsForResolver: None when the list fails or nobody is found. */
    method GetIPsForResolver(calls: Calls) returns (ips: Option<seq<string>>)
      ensures ips == if calls.listResolver.Ok? && AllAddresses(world.resolver) != []
                     then Some(AllAddresses(world.resolver)) else None
    {
      if !calls.listResolver.Ok? {
        return None;
      }
      var found: seq<string> := [];
      for i := 0 to |world.resolver|
        invariant found == AllAddresses(world.resolver[..i])
      {
        var endpoints := world.resolver[i];
        for j := 0 to |endpoints|
          invariant found == AllAddresses(world.resolver[..i]) + Addresses(endpoints[..j])
        {
          found := found + endpoints[j].addresses;
          assert endpoints[..j + 1][..j] == endpoints[..j];
        }
        assert endpoints[..|endpoints|] == endpoints;
        assert world.resolver[..i + 1][..i] == world.resolver[..i];
      }
      assert world.resolver[..|world.resolver|] == world.resolver;
      if |found| == 0 {
        return None;
      }
      return Some(found);
    }

    method CheckAndCreatePrivateService(publicSvc: Service, calls: Calls) returns (ok: bool)
      modifies this
      ensures (world, ok) == EnsurePrivate(old(world), publicSvc, calls)
    {
      if calls.getPrivate.Ok? && world.privateSvc.Some? {
        return true;
      }
      var ports := publicSvc.ports;
      for i := 0 to |ports|
        invariant |ports| == |publicSvc.ports|
        invariant forall k :: 0 <= k < |ports| ==>
                    ports[k] == if k < i then publicSvc.ports[k].(nodePort := 0) else publicSvc.ports[k]
      {
        ports := ports[i := ports[i].(nodePort := 0)];
      }
      var copy := Service("", ports, publicSvc.selector);
      assert copy == PrivateCopy(publicSvc);
      if !calls.own.Ok? {
        return false;
      }
      if world.privateSvc.Some? || calls.createPrivate.Refused? {
        return false;
      }
      world := world.(privateSvc := Some(copy));
      return calls.createPrivate.Ok?;
    }

    method CreateOrUpdateEndpointslice(calls: Calls) returns (ok: bool)
      modifies this
      ensures world == WriteSlice(old(world), calls)
    {
      var ips := GetIPsForResolver(calls);
      if ips.None? {
        return false;
      }
      if !calls.getSlice.Ok? {
        return false;
      }
      var addresses: seq<string> := [];
      for i := 0 to |ips.value|
        invariant addresses == ips.value[..i]
      {
        addresses := addresses + [ips.value[i]];
      }
      assert ips.value[..|ips.value|] == ips.value;
      if !calls.writeSlice.Refused? {
        world := world.(slice := Some(addresses));
      }
      return calls.writeSlice.Ok?;
    }

    method EnableProxyMode(calls: Calls)
      modifies this
      ensures world == EnableProxy(old(world), calls)
    {
      if !calls.getPublic.Ok? || world.publicSvc.None? {
        return;
      }
      var ok := CheckAndCreatePrivateService(world.publicSvc.value, calls);
      if !ok || !calls.watch.Ok? {
        return;
      }
      ok := CreateOrUpdateEndpointslice(calls);
    }

    /** deleteEndpointsliceToResolver. */
    method EnableServeMode(calls: Calls)
      modifies this
      ensures world == EnableServe(old(world), calls)
    {
      if !calls.getSlice.Ok? || world.slice.None? {
        return;
      }
      if !calls.deleteSlice.Refused? {
        world := world.(slice := None);
      }
    }

    /** switchMode, with the status patched on the way out. */
    method SwitchMode(mode: Mode, calls: Calls)
      modifies this
      ensures world == Switched(old(world), mode, calls)
    {
      if !calls.getCrd.Ok? {
        return;
      }
      if mode.Serve? {
        EnableServeMode(calls);
      } else {
        EnableProxyMode(calls);
      }
      if calls.getStatus.Ok? && calls.cached != Some(mode) && !calls.patchStatus.Refused? {
        world := world.(status := Some(mode));
      }
    }

    /** handleTargetDeploymentChanges and handleTargetRolloutChanges. */
    method HandleTargetChanges(event: Event, calls: Calls)
      modifies this
      ensures Next(old(world), Target(event, calls)) == Some(world)
    {
      match event
      case DeploymentChanged(replicas, ready) =>
        if replicas == 0 {
          SwitchMode(Proxy, calls);
        } else if ready > 0 {
          SwitchMode(Serve, calls);
        }
      case RolloutChanged(readyReplicas, healthy) =>
        if readyReplicas == 0 {
          SwitchMode(Proxy, calls);
        } else if readyReplicas > 0 && healthy {
          SwitchMode(Serve, calls);
        }
    }
  }
}
