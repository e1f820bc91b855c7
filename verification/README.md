# KubeElasti: admission, scaling and host rewriting, proved

This project models the parts of KubeElasti that are hardest to get right by reading, and proves what
they guarantee.

* **The resolver's admission stack** (`AdmissionStack`, `AdmissionSafety`, `AdmissionWork`,
  `AdmissionLimits`, `AdmissionCalls`, `AdmissionCode`, `Retry`): a lock-free semaphore that packs capacity
  and use into one 64-bit word and wakes waiters through a bounded channel, a breaker with a CAS counter
  around it, and the retry loop on top. Every atomic load, compare-and-swap, channel send and channel receive is one step;
  any number of goroutines interleave.
* **Scaling and modes** (`MergePatch`, `ScaleProtocol`, `ScaleSafety`, `ScaleLimits`, `ScaleCalls`,
  `Tick`, `ModeSwitch`, `Finalizer`): polling ticks, requests from the resolver, mode switches and clean-up act
  on one service in a small abstract cluster. Every call to the API server is a step that may be refused,
  or take effect and still be reported as failed.
* **The resolver's gates and host names** (`TrafficGate`, `RpcGate`, `ReadyCache`, `HostNames`,
  `HostRewrite`): timer-driven switches and caches, and the sixteen unanchored patterns that read a
  service and a namespace out of a host.

`Runs` holds the shared vocabulary: a step system is a partial function from state and event to state,
`Reaches` is reachability by some sequence of events, and `Total` sums weights over program counters.
Code that updates fields in place is also given as classes (`AdmissionCode.Breaker`,
`Tick.ScaleHandler`, `ModeSwitch.Reconciler`, `HostRewrite.HostManager`), each method proved equal to the
step or function the theorems are about.

`dafny verify dfyconfig.toml` checks everything.

## What came out

Where the code has a limit, the limit is stated as an equivalence: with a condition on the configuration,
on the state, or on the guard of the step that does the harm.

* In every run, tokens queued + tokens owed + goroutines looking again + slots in use is at least the
  smaller of capacity and channel size. That one inequality gives no lost wakeup when the capacity fits
  the channel, and no deadlock whenever both are at least 1.
* Once no token is queued or owed and nobody is looking again, no request is left waiting beside a free
  slot **if and only if** the capacity fits the channel or all slots fit capacity and channel together; in
  the configuration's terms, InitialCapacity is at most MaxConcurrency or QueueDepth is at most
  InitialCapacity. Exactly under that condition it is harmless to drop a token, as the comment in `release`
  (resolver/internal/throttler/semaphore.go:63-67) says it is. The defaults in the resolver's code,
  QueueDepth 100, MaxConcurrency 10 and InitialCapacity 100 (resolver/cmd/main.go:40-44), meet the second
  half. The shipped manifests set 50000, 100 and 500 (charts/elasti/values.yaml:54-60,
  resolver/config/deployment.yaml:38-45) and meet neither, so there a request can wait beside a free slot.
* `releaseInFlightSlot` tries its decrement once. Lost decrements can use up every slot but one, for any
  number of slots, and never the last one.
* A request is refused only by its own look at a full counter, and whoever else leaves the breaker has run
  its thunk or been cancelled.
* Every replica count ever served was asked for in the run. A request, a tick or a mode switch that nobody
  interferes with does, step by step and for every answer to every call, what the sequential code of `Tick`
  says; and what a tick does to replicas, pause flag and recorded time is stated from the triggers alone.
* From a given reachable state on, scaling down will respect every scale-up time recorded so far **if and
  only if** each of them is no later than the time recorded last or than the creation of the service, or is
  at least seven days old, the longest cooldown there is. Times stay recorded in order if and only if a run
  never records one older than the last one, unless creation is later still; and from every reachable state
  a run can do that, and then scale down too early.
* In a run, KEDA stays set for everybody between its own patch and its write **if and only if** no step
  turns KEDA the other way while somebody is there. Ticks run one after the other and only a tick pauses,
  so the scale-up of a tick always finds KEDA unpaused. While a goroutine is about to write, KEDA can be
  turned around under it **if and only if** it writes 0, or it is a request and the tick under way, if
  there is one, does not wait for the lock: the pause lies outside the lock. Operations that do not overlap
  are safe.
* A run gets the traffic gate stuck, shut for ever, **if and only if** it takes one step: the store at the
  end of enabling, of an object that was disabled again since, when nobody else is going to open the host.
  As long as no lookup has stored while somebody had an object in hand, that can still happen **if and only
  if** the host has not been looked up yet or a first lookup is still about to store. In any reachable
  state in which no first lookup is about to store and everybody works on the cached object, it is safe
  unless stuck already.
* Status and EndpointSlice agree throughout a history **if and only if** no switch in it gets only one of
  the two done. The status is patched also when the switch fails, and from a cached copy: a mode that the
  cache shows already is left out of the patch.
* A clean-up pass leaves the slice without the private service **if and only if** the slice was there,
  nobody else deleted it and its own worker failed or did not see it, while the private service was not
  there or was deleted. The workers look in a cache: slice and private service are gone with the finalizer
  **if and only if** the cache missed neither, and a stale one lets the slice stay for good. With a cache
  that is up to date nothing is left behind, whatever calls fail, and a failed call keeps the finalizer
  until the next reconcile.
* A host is accepted **if and only if** two labels with a dot between them stand anywhere in it. A request
  for a well-formed host gets to the private service **if and only if** the host has no scheme and ends in
  `.svc` or `.svc.cluster.local`; `svc.ns` is accepted and not redirected, nor is any text without a dot
  before its first slash, such as one that begins with `https://`.
* A request to the operator is dropped **if and only if** a request for a service of that name, in any
  namespace, has its window open: the gate is keyed by service name
  (resolver/internal/operator/RPCClient.go:47).

## Model

| member | source | states |
|---|---|---|
| AdmissionStack.PackUnpack | resolver/internal/throttler/semaphore.go:108-119 | packing and unpacking undo each other exactly when the left part fits 32 bits, and every word is the pack of its halves |
| AdmissionStack.AlwaysInv | resolver/internal/throttler/semaphore.go:23-100 | every reachable state of the whole stack, for all sizes, satisfies the wakeup inequality, the holder count, the in-flight equation and the absence of the panic |
| AdmissionSafety.NoLostWakeup | resolver/internal/throttler/semaphore.go:23-100 | while the capacity fits the channel, tokens queued and owed and goroutines retrying cover the free slots, so a goroutine that waits when all is quiet waits at a full semaphore |
| AdmissionSafety.NeverDeadlocked | resolver/internal/throttler/semaphore.go:23-73 | with capacity and channel at least 1, whenever a goroutine waits some goroutine that brings a wakeup can take a step |
| AdmissionSafety.RefinesCountingSemaphore | resolver/internal/throttler/semaphore.go:23-100 | every step of the packed CAS loops is one named atomic operation of a counting semaphore over a set of holders, or none, and the use count is the number of holders, at most the largest capacity set |
| AdmissionSafety.NeverPanics | resolver/internal/throttler/semaphore.go:53-55 | the panic of an unpaired release is unreachable |
| AdmissionSafety.BreakerAccounting | resolver/internal/throttler/breaker.go:41-90 | inFlight is the requests inside plus the lost decrements and at most QueueDepth + MaxConcurrency, and thunks running at once are at most the smaller of capacity and slots |
| AdmissionSafety.RefusedWhenFull | resolver/internal/throttler/breaker.go:65-82 | of all steps, one refuses a request exactly when it is that request's own look at the counter and the requests inside fill the slots that lost decrements have left |
| AdmissionCalls.EveryCallRuns | resolver/internal/throttler/breaker.go:41-63 | in every run, whoever is on the way out of Maybe or out, other than refused at once, has ended its thunk or been cancelled |
| AdmissionCalls.CallAlone | resolver/internal/throttler/breaker.go:41-90 | a call that finds room and is not interfered with leaves everything as it was, but for one token more if the channel has room |
| AdmissionCalls.WakesIntoRoom | resolver/internal/throttler/semaphore.go:46-69 | a released slot brings a wakeup exactly when whoever is woken could take it |
| AdmissionCalls.ResizeTakesEffect | resolver/internal/throttler/semaphore.go:76-100 | a resize ends, or goes on to sending tokens, only with the capacity it was to set in place and the use count kept |
| AdmissionCalls.ResizeAlone | resolver/internal/throttler/semaphore.go:76-100 | as steps, uninterrupted, a resize sets the capacity and adds a token for each unit gained as far as the channel holds them |
| AdmissionSafety.NeverWedged | resolver/internal/throttler/breaker.go:84-90 | lost decrements stay below the number of slots: with nobody inside, the next request is admitted |
| AdmissionSafety.EveryExitGivesBack | resolver/internal/throttler/breaker.go:41-63 | once all calls have returned, no slot is in use and the counter holds only lost decrements |
| AdmissionSafety.ServedIsReachable | resolver/internal/throttler/breaker.go:28-35 | without a resize after construction the capacity is the initial one in every reachable state |
| AdmissionWork.FewSlotsConserve | resolver/internal/throttler/semaphore.go:23-69 | with no more slots than capacity and channel hold together, whoever waits when no token is queued or owed and nobody retries waits at a full semaphore, although tokens are dropped |
| AdmissionLimits.WorkConservingIff | resolver/internal/throttler/semaphore.go:59-69 | for given slots, channel and capacity, no request is left beside a free slot in any run if and only if the capacity fits the channel or the slots fit both together |
| AdmissionLimits.Stranded | resolver/internal/throttler/semaphore.go:59-69 | for every other choice of sizes, a run that ends with a waiting request and a free slot, no token queued or owed and nobody retrying |
| AdmissionLimits.OneRequestFills | resolver/internal/throttler/breaker.go:84-90 | for every number of slots, a run after which a single request inside makes the breaker refuse all others |
| AdmissionCode.Breaker.constructor | resolver/internal/throttler/semaphore.go:15-20 | a new breaker has its initial capacity and as many tokens as capacity and channel allow |
| AdmissionCode.Breaker.UpdateCapacity | resolver/internal/throttler/semaphore.go:76-100 | uninterrupted, it sets the capacity, keeps the use count, and adds the tokens gained up to the channel size |
| AdmissionCode.Breaker.Resume | resolver/internal/throttler/semaphore.go:23-100 | the code of acquire, release and updateCapacity, and of the breaker's slots, run by any goroutine up to its next atomic or channel operation, is that goroutine's step of the step system, and stands still exactly where the system does |
| AdmissionCode.Breaker.AcquireCancelled | resolver/internal/throttler/semaphore.go:30-31 | giving up at the select goes to the deferred release of the breaker's slot |
| Retry.Try | resolver/internal/throttler/throttler.go:53-94 | ends with the first attempt that is refused, cancelled, ready or late; calls resolve at most once, with the number of attempts made; returns nil exactly when resolve ran, returned nil and the deadline had not passed; runs the thunk at most ceil(deadline/pause) + 1 times |
| Retry.SomeAttemptStops | resolver/internal/throttler/throttler.go:61-89 | whatever the attempts meet, one within ceil(deadline/pause) retries ends the loop, also when admitted after the deadline |
| Retry.LooksAfter | resolver/internal/throttler/throttler.go:61-89 | when an attempt looks at the context, the waits and the work of all attempts including its own and the pauses between them have been counted |
| MergePatch.DiffApplies | operator/internal/controller/opsCRD.go:47-60 | the patch made from two versions of an object turns the one into the other, and on any newer version leaves alone what the two agree on |
| MergePatch.LastPatchDecides | pkg/scaling/scale_handler.go:427-441 | of two patches on the same members the later alone decides |
| ScaleSafety.KedaNeverHalfPaused | pkg/scaling/scale_handler.go:427-454 | in every interleaving the annotations of the ScaledObject are those of the start, or those with the whole of the last pause or unpause applied, and no other annotation changes |
| ScaleProtocol.ResolveCooldown | pkg/scaling/scale_handler.go:233-239 | the cooldown is the spec's seconds, or fifteen minutes when that is zero, never less than a second and never more than seven days |
| ScaleProtocol.ModePatchMeans | operator/internal/controller/opsCRD.go:47-60 | the status patch of a mode switch, made from a status of any age, changes on a newer status nothing but mode and reconcile time, and fails to set the mode exactly when the old status showed it already and the newer does not |
| ScaleSafety.RecordedTimeNeverLost | pkg/scaling/scale_handler.go:456-467 | in every interleaving with mode switches the status shows the scale-up time recorded last |
| ScaleSafety.ScaleDownCoolsDown | pkg/scaling/scale_handler.go:147-231 | replicas only go down when a tick writes 0, at least one cooldown after creation and after the scale-up time the tick had listed |
| ScaleSafety.OrderOfRunIff | pkg/scaling/scale_handler.go:456-467 | in any run times end up recorded in order if and only if no step recorded a time older than the last, unless creation is later still |
| ScaleSafety.InOrderCoolsDown | pkg/scaling/scale_handler.go:202-231 | with times recorded in order, every write of 0 is one cooldown after every time recorded before its tick listed |
| ScaleLimits.CooldownSafeIff | pkg/scaling/scale_handler.go:202-231 | from any reachable state on, every write of 0 by a tick that listed the times recorded so far is one cooldown after all of them, if and only if each is no later than the last one or the creation, or at least 604800 seconds old |
| ScaleLimits.OlderTimeLandsLast | pkg/scaling/scale_handler.go:457-462 | from every reachable state a run in which an older time overwrites a newer one, and a tick then scales down too early |
| ScaleSafety.ReplicasAreTheMaximum | pkg/scaling/scale_handler.go:285-425 | without scaling down, the replicas are the maximum of the initial value and of all scale-ups that succeeded, in every interleaving of gets and patches under the lock |
| ScaleCalls.ServedWasAsked | pkg/scaling/scale_handler.go:285-321 | in every run each replica count that was served was asked for by a request or a tick's decision |
| ScaleCalls.RequestAlone | operator/internal/elastiserver/elastiServer.go:148-176 | a request for n replicas that nobody interferes with does what the sequential scale-up does, whatever its calls are answered; when none fails it ends with at least n replicas, KEDA unpaused and its time recorded |
| ScaleCalls.TickAlone | pkg/scaling/scale_handler.go:104-265 | a tick as steps that nobody interferes with does what the sequential tick does, for every clock reading, trigger outcome and answer |
| ScaleCalls.SwitchAlone | operator/internal/controller/opsCRD.go:47-60 | a mode switch that nobody interferes with, over a status of any age, shows its mode unless the patch is refused or the cache showed it too early, likewise its time, and keeps the recorded scale-up time |
| ScaleProtocol.LockStepKeeps | pkg/scaling/scale_handler.go:286-288 | only the holder of the lock is between get and patch, and what it read is still there when it writes |
| ScaleSafety.AgreesStepIff | pkg/scaling/scale_handler.go:427-454 | KEDA stays set for a goal in a step if and only if the step is not an effective patch the other way |
| ScaleSafety.KedaRunIff | pkg/scaling/scale_handler.go:202-265 | through both entry points and any failures, KEDA is set for everybody between patch and write in all states of a run, if and only if no step of it turns KEDA the other way while somebody is there |
| ScaleSafety.SerialKedaAgrees | pkg/scaling/scale_handler.go:202-265 | when operations do not overlap, 0 is written only while KEDA is paused at 0 and more only while it is unpaused |
| ScaleSafety.FailedPauseStops | pkg/scaling/scale_handler.go:217-257 | replicas change only in a write that was not refused, and a pause or unpause that is not acknowledged ends its operation |
| ScaleSafety.TickScaleUpAgrees | pkg/scaling/scale_handler.go:89-101 | ticks run one after the other and only they pause, so the scale-up of a tick finds KEDA unpaused when it writes, in every interleaving with requests |
| ScaleLimits.KedaTurnIff | operator/internal/elastiserver/elastiServer.go:148-176 | from every reachable state with a goroutine about to write, KEDA can be turned the other way while it stays there, if and only if it writes 0, or it is no tick and no tick under way waits for the lock |
| Tick.CalculateScaleDirection | pkg/scaling/scale_handler.go:147-200 | down exactly when there are triggers, the service is old enough and all pass; up exactly when the first trigger that does not pass is not below its threshold; no scaling exactly when the service is too young or the first such trigger's health check errs |
| Tick.PollIs | pkg/scaling/scale_handler.go:162-199 | the verdict is that of the first trigger that does not pass, and down when there is none |
| Tick.DownIff | pkg/scaling/scale_handler.go:104-231 | a tick takes a service down only to 0, only under the full condition, and only with KEDA paused; when no call fails, exactly under that condition |
| Tick.UpIff | pkg/scaling/scale_handler.go:241-265 | a tick takes a service up only from below its minimum to it, with KEDA unpaused, when the service is readable and old enough and the first trigger that does not pass is not below its threshold; when no call fails, exactly then; the recorded time changes exactly in such ticks, unless that patch is refused |
| Tick.PausedIff | pkg/scaling/scale_handler.go:202-265 | a tick pauses exactly an idle, cooled down service and unpauses exactly a busy one, when KEDA manages it and the patch is not refused |
| Tick.ScaleHandler.CheckAndScale | pkg/scaling/scale_handler.go:104-145 | a tick over services with distinct targets does to each what it does to it alone, whatever fails, and touches nothing else |
| Tick.ScaleHandler.HandleScaleToZero | pkg/scaling/scale_handler.go:202-231 | cooldown, pause, write of 0, each stopping the next when it fails |
| Tick.ScaleHandler.HandleScaleFromZero | pkg/scaling/scale_handler.go:241-265 | time recorded even if that fails, unpause, write of the minimum |
| Tick.ScaleHandler.ScaleTarget | pkg/scaling/scale_handler.go:355-425 | a target that has the wanted replicas, or more when scaling up, is left alone; otherwise it gets them, unless a call fails |
| Tick.FailedPauseKeepsReplicas | pkg/scaling/scale_handler.go:217-257 | a tick changes replicas only after an acknowledged pause or unpause that fits the new count, so a failed one leaves them alone in both directions |
| ModeSwitch.SliceNeedsPrivateService | operator/internal/controller/opsModes.go:23-97 | in any history of events, whatever calls fail, the slice to the resolver exists only with a private service, which is a copy of the public one |
| ModeSwitch.LastDecisionRules | operator/internal/controller/opsDeployment.go:25-36 | whatever failed before, if no call of the last decisive event fails: after a Deployment with no replicas or a Rollout with none ready the slice lists exactly the resolver's addresses of that time, after ready replicas it is absent; the status shows that mode unless the cache showed it too early |
| ModeSwitch.EventDecides | operator/internal/controller/opsRollout.go:16-36 | an event of the target switches to the mode its numbers ask for, and changes nothing when they ask for none |
| ModeSwitch.SwitchLeaves | operator/internal/controller/opsModes.go:23-97 | slice, status, private and public service after a switch, part by part, from the answers to its calls |
| ModeSwitch.AllAddressesHas | operator/internal/controller/opsEndpointslices.go:26-31 | an address is listed exactly when some endpoint of some resolver slice has it |
| ModeSwitch.SwitchAgreesIff | operator/internal/controller/opsModes.go:23-97 | status and slice agree after a switch from any world if and only if the named guards let both or neither through, as far as they change anything |
| ModeSwitch.AgreesAlwaysIff | operator/internal/controller/opsModes.go:23-56 | from agreement, status and slice agree throughout a history if and only if no switch in it gets only one of the two done |
| ModeSwitch.Reconciler.GetIPsForResolver | operator/internal/controller/opsEndpointslices.go:18-36 | all addresses in order, or none when the list fails or is empty |
| ModeSwitch.Reconciler.CheckAndCreatePrivateService | operator/internal/controller/opsServices.go:34-69 | keeps an existing private service, and otherwise creates a copy without cluster IP and node ports; a failed get falls through to the create |
| ModeSwitch.Reconciler.CreateOrUpdateEndpointslice | operator/internal/controller/opsEndpointslices.go:54-128 | the slice gets exactly the resolver's addresses, or stays as it was |
| ModeSwitch.Reconciler.EnableProxyMode | operator/internal/controller/opsModes.go:58-85 | private service, watch and slice in that order, each stopping the next when it fails |
| ModeSwitch.Reconciler.EnableServeMode | operator/internal/controller/opsEndpointslices.go:38-52 | the slice is deleted unless a call is refused |
| ModeSwitch.Reconciler.SwitchMode | operator/internal/controller/opsModes.go:23-56 | the switch, then the status whatever became of the switch |
| ModeSwitch.Reconciler.HandleTargetChanges | operator/internal/controller/opsRollout.go:16-36 | the mode a Deployment or Rollout event asks for is switched to, and other events change nothing |
| Finalizer.FinalizerGoesLast | operator/internal/controller/opsCRD.go:78-123 | over any reconciles, failures, cache contents and orders of the three goroutines, once the finalizer is gone directory entry and informers are, and slice and private service are if and only if the cache missed neither; a pass without failure removes it |
| Finalizer.FreshCacheLeavesNothing | operator/internal/controller/opsCRD.go:78-123 | over runs in which the cache shows what is there, with any failures, the finalizer is removed only when all is gone |
| Finalizer.FailedCallKeepsFinalizer | operator/internal/controller/opsCRD.go:119-124 | after a get or delete that was not acknowledged the finalizer stays until another reconcile begins |
| Finalizer.PassCleans | operator/internal/controller/opsCRD.go:208-231 | from every idle state, a pass without failure over an up to date cache removes everything and the finalizer |
| Finalizer.SliceMayOutliveFinalizer | operator/internal/controller/opsEndpointslices.go:38-52 | from every beginning with a slice, a pass without failure over a stale cache after which the finalizer is gone and the slice stays |
| Finalizer.RepeatIsHarmless | operator/internal/controller/opsCRD.go:208-231 | once all is gone, further passes delete nothing and all stays gone |
| Finalizer.OrphanedIff | operator/internal/controller/opsCRD.go:97-112 | exactly when a pass leaves the slice without the private service: which of the two were there, who deleted them, and which call failed |
| Finalizer.SliceMayOutliveService | operator/internal/controller/opsCRD.go:97-112 | from every beginning with slice and private service, a pass that ends so |
| TrafficGate.StuckIsForever | resolver/internal/hostmanager/hostManager.go:77-99 | shut with nobody hopeful is the same as shut in every state that can follow |
| TrafficGate.StoreDecides | resolver/internal/hostmanager/hostManager.go:77-99 | when the store of a disable or an enable is done, the host is shut exactly if the stored object is, whoever else replaced it in between |
| TrafficGate.NeverStuckIff | resolver/internal/hostmanager/hostManager.go:41-99 | a run gets stuck if and only if it takes the store of an object disabled again since, with nobody else to open the host |
| TrafficGate.CanStickIff | resolver/internal/hostmanager/hostManager.go:46-68 | in every state reached without a late store the host is not stuck, and can get stuck if and only if it has not been looked up yet or a first lookup is still about to store |
| TrafficGate.OnlyStuckSticks | resolver/internal/hostmanager/hostManager.go:46-99 | in every reachable state, late stores or not, with no first lookup about to store and everybody at work on the cached object, the host can get stuck if and only if it is |
| RpcGate.OneRequestOutstanding | resolver/internal/operator/RPCClient.go:46-55 | the map entry has exactly one owner as long as it exists, so at most one request per service name is outstanding |
| RpcGate.LocksNeverBlock | resolver/internal/operator/RPCClient.go:98-110 | locking never blocks, unlocking is never unpaired, and a request starts only when the window of the last one is over |
| RpcGate.DroppedIff | resolver/internal/operator/RPCClient.go:46-55 | a request is dropped exactly while a request for that service name, of whatever namespace, has its window open |
| RpcGate.WindowLength | resolver/internal/operator/RPCClient.go:51-54 | after a request has ended, its timer can fire exactly from one retry duration on |
| RpcGate.WindowCloses | resolver/internal/operator/RPCClient.go:46-110 | from every reachable state without an open window a request gets through, and one retry duration after its end the next one can |
| ReadyCache.CachedIsRecent | resolver/internal/throttler/throttler.go:96-116 | whatever is cached is true, has a deletion pending, and is at most the re-enable duration old, also with overlapping timers |
| ReadyCache.StoredByScan | resolver/internal/throttler/throttler.go:96-116 | an entry appears or is renewed only at a scan that found the target ready, at that moment, and always then |
| ReadyCache.CachedWasFound | resolver/internal/throttler/throttler.go:96-116 | whatever is cached after a run comes from a scan among its events that found the target ready, at the time the entry stands for |
| ReadyCache.NoScanWhileCached | resolver/internal/throttler/throttler.go:97-100 | as long as an entry is kept and no earlier miss is left, no check leads to a scan |
| ReadyCache.MissScansAndExpires | resolver/internal/throttler/throttler.go:111-115 | a miss leads to a scan, and the entry it makes is deleted after the re-enable duration and not before |
| HostNames.ReadsBack | resolver/internal/hostmanager/hostManager.go:101-136 | every well-formed host, with or without scheme, `.svc` or cluster suffix, port and dot-free path, reads back as its own service and namespace |
| HostNames.AcceptedIff | resolver/internal/hostmanager/hostManager.go:101-136 | a text is accepted if and only if two labels with a dot between them stand somewhere in it, and what is read are two such labels |
| HostNames.StrongestWins | resolver/internal/hostmanager/hostManager.go:101-136 | wherever a host of one of the ten forms stands in a text, what is read stands in it in a form at least as strong, by tail and port and then by scheme |
| HostNames.InvalidIff | resolver/internal/hostmanager/hostManager.go:121-135 | a text is refused as no host at all if and only if it has not one label character |
| HostNames.MatchIsText | resolver/internal/hostmanager/hostManager.go:103-120 | what a two-label pattern matches is a text it describes, with those labels |
| HostNames.TextMatches | resolver/internal/hostmanager/hostManager.go:103-120 | a text a two-label pattern describes is matched wherever it stands, with its own labels |
| HostNames.ExtractNamespaceAndService | resolver/internal/hostmanager/hostManager.go:121-135 | the result comes from the first pattern that finds anything |
| HostRewrite.SourceHostIs | resolver/internal/hostmanager/hostManager.go:138-159 | for any text, the source host is what stands before the first slash, behind `http://` |
| HostRewrite.TargetHostIs | resolver/internal/hostmanager/hostManager.go:161-169 | for any text, the target host is the source host with what stands before the first dot replaced if there are two dots, and otherwise the source host itself |
| HostRewrite.JoinSplit | resolver/internal/hostmanager/hostManager.go:163-168 | splitting at dots and joining again gives the text back, in one part more than it has dots |
| HostRewrite.PrivateIsLabel | pkg/utils/utils.go:22-28 | the private name of a service is again one label |
| HostRewrite.PrivateNamesDiffer | pkg/utils/utils.go:22-28 | different services have different private names, whatever the hash |
| HostRewrite.RewriteIsFaithful | resolver/internal/hostmanager/hostManager.go:47-67 | for a well-formed host with a tail and without scheme, the target host differs from the source host in the service name alone, and reads back as the private service in the same namespace |
| HostRewrite.NotRedirected | resolver/internal/hostmanager/hostManager.go:47-67 | every other well-formed host is accepted, and its target host is the source host |
| HostRewrite.RedirectedIff | resolver/internal/hostmanager/hostManager.go:47-67 | the target host of a well-formed host reads back as the private service in the same namespace if and only if the host has no scheme and has a tail |
| HostRewrite.AuthorityDecides | resolver/internal/hostmanager/hostManager.go:47-67 | any accepted text whose part before the first slash is a well-formed host with a tail, whatever follows, gets to the private service of what was read in that host's namespace, so to the right one if and only if that is the namespace read |
| HostRewrite.NoDotNoTarget | resolver/internal/hostmanager/hostManager.go:138-169 | of any text without a dot before its first slash the target host is the source host, and is not accepted |
| HostRewrite.SourceHostRightIff | resolver/internal/hostmanager/hostManager.go:154-159 | the source host of a well-formed host is right if and only if the host has no scheme |
| HostRewrite.HostManager.GetHost | resolver/internal/hostmanager/hostManager.go:41-74 | a known host comes from the cache, an unknown one is computed and cached, and what is cached always equals recomputation but for the traffic flag |
| HostRewrite.HostManager.SetTraffic | resolver/internal/hostmanager/hostManager.go:77-99 | only the traffic flag of the one host changes, and only if it differs |

## Left out

- HTTP serving, reverse proxying, buffers, transports and dial backoff: library plumbing. The deadline and the resolve callback appear as inputs of `Retry.Try`.
- Prometheus queries: a trigger is an oracle that cannot be created, errs, is unhealthy, is below its threshold or is not.
- The informer manager and caches: events reach the model as arbitrary sequences, and a status read, or the look-up of what is to be cleaned up, may return any content.
- handleResolverChanges: it runs outside the lock of switchMode and on a mode that may be old, so the slice after it is not covered by `ModeSwitch`.
- handlePublicServiceChanges: copying ports to the private service would only add easy members.
- Queue-size counters: a load followed by a store, so they drift; nothing depends on them but the gauge.
- SHA-256: any function that gives ten lower-case hexadecimal characters.
- Services without ports and Deployments without `spec.replicas`: the code panics on them (operator/internal/controller/opsEndpointslices.go:96, pkg/scaling/scale_handler.go:362), and the API server does not admit or defaults them.
- Metrics, logging, events, Sentry, deep copies and manifests.
- ReadyCache.CachedIsRecent: takes a scan, its store and its timer as one step and timers as punctual, because a goroutine held up between them may cache an answer of any age.
- RpcGate.OneRequestOutstanding: modelled on values as a step system for one service name; the mutexes and the map are not objects of their own.
- TrafficGate.CanStickIff: modelled on values as a step system; reads and writes of the flag are taken as atomic, which the code does not ensure.
- ModeSwitch.SwitchAgreesIff: reads other than that of the status are taken as up to date, and only the switch writes slice and status.
- ScaleSafety.KedaRunIff: nobody but the operator edits the pause annotations.
- ScaleSafety.ReplicasAreTheMaximum: no writer outside the operator, which could change the replicas between get and patch.
- HostRewrite.RedirectedIff: accepted texts whose part before the first slash has dots but is no well-formed host, such as `x.svc.ns.svc`, are covered by TargetHostIs and AcceptedIff only.
- TrafficGate.OnlyStuckSticks: after a late store, states in which somebody still has another object in hand are covered by NeverStuckIff only.
- Finalizer.FinalizerGoesLast: no switchMode overlaps the clean-up; one that did could create the slice again.
- Retry.Try: the breaker it calls is an arbitrary outcome for each attempt; what the breaker itself guarantees is in `AdmissionSafety`.
