# CN-WAN Operator: the reconciliation pipeline

The operator watches Kubernetes services and mirrors them in a service registry. Its controllers turn
cluster events into registry events; a dispatcher routes these to one worker per namespace; the
workers apply them to a registry of namespaces, services and endpoints. This project models the four
layers and proves what they do together.

- **Values and routing** (`Types.dfy`): events, endpoints, the routing key and the ownership test.
- **Registry** (`Registry.dfy`): one map keyed by namespace, service or endpoint. `Perform` is what one
  handler does in one go, `Fold` a log of events with each outcome, `Replay` events that all succeed;
  `Meaning.dfy` says what that is in the registry's own terms.
- **Workers** (`WorkerSteps.dfy`, `NamespaceWorker.dfy`): the handlers one remote call at a time, and as
  the methods of an object that updates a remote registry whose calls may fail.
- **State machine** (`Machine.dfy`): the dispatcher, all generations of workers, the registry and the
  clock; an action is one step of one goroutine, so a run is any interleaving.
- **What every run keeps** (`Lifecycle.dfy`, `Shutdown.dfy`, `Interleaving.dfy`, `Ownership.dfy`,
  `Reaping.dfy`), and runs that reach what the theorems exclude (`Witnesses.dfy`).
- **The dispatcher as an object** (`EventHandler.dfy`): one method per case of its loop, against
  functions on its map of workers; the machine's steps refine to the same functions.
- **Derivation** (`Annotations.dfy`, `Naming.dfy`, `Services.dfy`): from a Kubernetes service to endpoints.
- **Controllers** (`ServiceHandler.dfy`, `NamespaceHandler.dfy`): what each handler sends.
- **Convergence** (`Batches.dfy`, `ServiceConvergence.dfy`, `ServiceRuns.dfy`,
  `UpdateOutcomes.dfy`, `NamespaceConvergence.dfy`, `NamespaceEnable.dfy`): what the sent events make of
  the registry; through all layers (`Locality.dfy`, `EndToEnd.dfy`, `Arrival.dfy`); and inputs on which
  that is not what is meant (`Departures.dfy`).
- **Settings** (`Etcd.dfy`): normalisation of etcd endpoints.

## Assumptions about what is not in the repository

The client library of the registry is not part of this model. `Registry.dfy` states what is assumed:
registering is an upsert that fails below a missing parent; metadata given twice in one call merge and
the later wins; whether metadata stored earlier survive is left open (`RegisterMode`, every theorem
holds for both); deregistering removes that one object. A reading call may fail; a writing call may
take effect or not, whatever it reports. The persistent metadata contain the owner (`main.go:130-132`)
where a theorem needs it. The ten digits kept of a hash are an arbitrary function `digest`; where
different endpoints must have different names, `CollisionFree` says so for the service at hand. A
hostname lookup is an oracle that may answer differently each time a service is checked.

## Where the source departs from its evident intent

Each is modelled as written, with the exact condition under which the intent is met.

- `pkg/controllers/service.go:273` consults the map it iterates, so an update never creates an endpoint:
  `UpdateHandlerOutcome`, `NothingNewSent`, `UpdateMissesNewEndpoint`; `RepairedUpdateConverges` is about
  a guard on the old endpoints.
- `pkg/controllers/namespace.go:193` always sends deletes: `EnableHandlerOutcome`, `EnableMissesEndpoint`;
  `RepairedEnableHandler` is about sending the handler's own event type.
- `pkg/serviceregistry/events_handler.go:104` sends without watching the main context: `StuckReachable`,
  `BlockedSendProgress`.
- `pkg/serviceregistry/events_handler.go:76-78` returns at once when the map of workers is empty, even
  if a reaped worker still runs: `ReturnsCleanly`, `ReturnsWithWorkerRunning`.
- `pkg/serviceregistry/events_handler.go:113-124` may reap a worker with a backlog and let two workers
  of one namespace overlap: `SmallBacklogReapedEmpty`, `LargeBacklogReapedBusy`,
  `LargeBacklogLosesEvents`, `OverlapMakesOrphan`, `OrphanStepIff`.
- `pkg/serviceregistry/namespace_worker.go:74-116` registers without checking the owner, although
  `docs/concepts.md:77-79` says that objects of others are skipped: `ForeignKeptIffNotRegistered`,
  `UnguardedRegisterTakesOver`; `RepairedRegisterSkips` is about a check before registering.
- `internal/utils/utils.go:158` and `168` remember the last port of a host only: `DuplicateFreeIff`,
  `RepairedAgreesIff`, `EtcdKeepsDuplicate`; `RepairedDedup` is about remembering all of them.

## Model

| member | source | states |
|---|---|---|
| `Registry.PerformKeepsNoOrphans` | pkg/serviceregistry/namespace_worker.go:119-232 | one handler, whatever its calls' outcome, leaves no object without its parent if there was none |
| `Registry.PerformSubtree` | pkg/serviceregistry/namespace_worker.go:74-232 | a handler of one namespace commutes with looking at that namespace only, and does nothing to any other |
| `Meaning.RegisterEndpointMeans` | pkg/serviceregistry/namespace_worker.go:100-116 | below its service an endpoint is stored with its own address and port, all persistent metadata, its own under all other keys, and nothing else but what a merging library keeps; no other object changes |
| `Meaning.RegisterServiceMeans` | pkg/serviceregistry/namespace_worker.go:90-98 | below its namespace a service is stored with the persistent metadata, and nothing else but what a merging library keeps |
| `Meaning.RegisterNamespaceMeans` | pkg/serviceregistry/namespace_worker.go:80-88 | so is a namespace |
| `Meaning.DeleteEndpointMeans` | pkg/serviceregistry/namespace_worker.go:119-151 | an endpoint goes iff its `owner` is `cnwan-operator` |
| `Meaning.DeleteServiceMeans` | pkg/serviceregistry/namespace_worker.go:153-193 | a service goes iff its `owner` is `cnwan-operator` and no endpoint is registered under it |
| `Meaning.DeleteNamespaceMeans` | pkg/serviceregistry/namespace_worker.go:195-232 | a namespace goes iff its `owner` is `cnwan-operator` and no service is registered under it |
| `Meaning.DescribesStored` | pkg/serviceregistry/namespace_worker.go:106-110 | what these say of an endpoint's entry determines it |
| `WorkerSteps.CallRefinesPerform` | pkg/serviceregistry/namespace_worker.go:74-232 | each remote call of a handler either only learns more, or ends the handler having done exactly the atomic guarded operation |
| `WorkerSteps.CallsRefinePerform` | pkg/serviceregistry/namespace_worker.go:119-232 | Get, List and Deregister as separate calls that may fail amount, without interference, to one guarded delete, a success iff every call made went through |
| `NamespaceWorkers.RegistryClient.Get` | pkg/serviceregistry/namespace_worker.go:130-135 | an answer is the stored object; a missing object or a failure gives an error |
| `NamespaceWorkers.RegistryClient.ListChildren` | pkg/serviceregistry/namespace_worker.go:174-183 | first child, no child, or a failure |
| `NamespaceWorkers.RegistryClient.RegisterObject` | pkg/serviceregistry/namespace_worker.go:83-110 | an upsert that may fail, and fails below a missing parent |
| `NamespaceWorkers.RegistryClient.Deregister` | pkg/serviceregistry/namespace_worker.go:144-148 | removes that one object, or fails |
| `NamespaceWorkers.NamespaceWorker.HandleCreateUpdate` | pkg/serviceregistry/namespace_worker.go:74-117 | makes the one call the step machine prescribes; if it takes effect and the parent is there, the object is stored with its own address, port and metadata and the persistent metadata |
| `NamespaceWorkers.NamespaceWorker.HandleDeleteEndpoint` | pkg/serviceregistry/namespace_worker.go:119-151 | makes exactly the calls the step machine prescribes: the endpoint goes iff it is there, the operator's, and every call made goes through |
| `NamespaceWorkers.NamespaceWorker.HandleDeleteService` | pkg/serviceregistry/namespace_worker.go:153-193 | likewise: the service goes iff it is there, the operator's, empty, and every call made goes through |
| `NamespaceWorkers.NamespaceWorker.HandleDeleteNamespace` | pkg/serviceregistry/namespace_worker.go:195-232 | likewise: the namespace goes iff it is there, the operator's, empty, and every call made goes through |
| `NamespaceWorkers.NamespaceWorker.HandleNamespacedEvents` | pkg/serviceregistry/namespace_worker.go:46-72 | the loop takes queued events in order and leaves the fold of their outcomes, each outcome a success iff all calls made for that event went through; it leaves events queued only if it was asked to stop |
| `Lifecycle.WorkerLifecycle` | pkg/serviceregistry/events_handler.go:107-158 | in every reachable state the wait group counts the live workers, each is mapped or cancelled, a namespace has one uncancelled worker at most, queues hold 25 events at most, all routed to their worker |
| `Lifecycle.EventConservation` | pkg/serviceregistry/events_handler.go:91-105 | per namespace, what was received is what its workers were sent, in order, then what is pending; what a worker was sent is processed, in flight, queued or lost, in that order; only a worker asked to stop loses anything |
| `Lifecycle.CleanUpMeans` | pkg/serviceregistry/events_handler.go:107-124 | the clean-up takes out and cancels exactly the workers whose last event, if set, is more than 300 000 000 000 ns ago |
| `Lifecycle.InvStep` | pkg/serviceregistry/events_handler.go:65-158 | every step of every goroutine keeps the lifecycle and conservation invariant |
| `Shutdown.ShutdownTerminates` | pkg/serviceregistry/events_handler.go:73-89 | after the cancel branch the workers can make a bounded number of steps in all, taking queued events included, and when none can step the wait group is zero |
| `Shutdown.ShutdownReachesZero` | pkg/serviceregistry/namespace_worker.go:50-55 | from every state of the shutdown, workers' steps alone bring the wait group to zero |
| `Shutdown.ReturnsCleanly` | pkg/serviceregistry/events_handler.go:73-89 | the dispatcher returns with a worker still running iff it found its map empty with the wait group not at zero; every worker left behind was cancelled and taken out of the map |
| `Shutdown.BlockedSendProgress` | pkg/serviceregistry/events_handler.go:100-125 | a blocked send is blocked for ever iff its worker has exited with a full queue; before the main context is cancelled the worker is live, was not asked to stop, and makes room |
| `Shutdown.MakesRoom` | pkg/serviceregistry/namespace_worker.go:50-70 | the worker a send is blocked on makes room within four steps of its own |
| `Shutdown.StuckForever` | pkg/serviceregistry/events_handler.go:104 | a dispatcher sending to an exited worker's full queue stays there in every continuation |
| `Witnesses.StuckReachable` | pkg/serviceregistry/events_handler.go:104 | that state is reachable once the main context is cancelled |
| `Witnesses.QueueFillsUp` | pkg/serviceregistry/events_handler.go:143 | a queue does hold 25 events, and the next send blocks |
| `Witnesses.HandledAfterCancel` | pkg/serviceregistry/events_handler.go:65-105 | with the main context cancelled an event may still be received, sent, taken and handled |
| `Witnesses.ReapedWorkerDrains` | pkg/serviceregistry/namespace_worker.go:50-70 | a cancelled worker may handle all it has queued before it exits |
| `Witnesses.ReturnsWithWorkerRunning` | pkg/serviceregistry/events_handler.go:76-78 | a run after which the dispatcher has returned while a reaped worker handles an event |
| `Interleaving.InterleavingRefinesFold` | pkg/serviceregistry/namespace_worker.go:46-72 | in every run where a reaped worker exits before its namespace gets a new one, each namespace's part of the registry is the sequential fold of its processed events, however workers interleave and calls fail |
| `Interleaving.ProcessedInDispatchOrder` | pkg/serviceregistry/events_handler.go:100-105 | what a namespace's workers processed is, generation by generation, a prefix of what they were sent |
| `Interleaving.QuietRunProcessedAll` | pkg/serviceregistry/events_handler.go:91-105 | at rest, what was processed is what was received, and with no failed call the registry is the received events replayed |
| `Interleaving.NoOrphansReachable` | pkg/serviceregistry/namespace_worker.go:119-232 | in every registry such a run reaches each endpoint's service and each service's namespace is registered, other workers running between Get, List and Deregister |
| `Interleaving.OrphanStepIff` | pkg/serviceregistry/namespace_worker.go:144-226 | a step makes the first orphan iff it deregisters an object that has children at that moment |
| `Witnesses.OverlapMakesOrphan` | pkg/serviceregistry/events_handler.go:113-158 | without that condition a run with overlapping workers leaves an endpoint whose service is gone |
| `Ownership.ForeignObjectsSurvive` | pkg/serviceregistry/namespace_worker.go:130-225 | in every run, an object whose `owner` is not `cnwan-operator` at the start is unchanged unless a create or update event for that very object was processed |
| `Ownership.OnlyOwnedRemoved` | pkg/serviceregistry/namespace_worker.go:137-186 | every object a step of any run removes has the `owner` `cnwan-operator` at that moment |
| `Ownership.ForeignKeptIffNotRegistered` | pkg/serviceregistry/namespace_worker.go:74-116 | in every orderly run an object of another owner is unchanged iff no create or update event for it was processed; once one was, it is the operator's or gone |
| `Ownership.UnguardedRegisterTakesOver` | pkg/serviceregistry/namespace_worker.go:90-98 | a delete event alone leaves another owner's object; a create event before it lets it be removed iff nothing is below it |
| `Ownership.RepairedRegisterSkips` | docs/concepts.md:77-79 | repair: with an ownership check before registering no log of events changes another owner's object, and where there is none nothing else changes |
| `Reaping.SmallBacklogReapedEmpty` | pkg/serviceregistry/events_handler.go:38-124 | with handlers within a minute and no delay, a worker whose backlog was at most five at its last event has nothing left when it is reaped |
| `Reaping.LargeBacklogReapedBusy` | pkg/serviceregistry/events_handler.go:104-124 | five is exact: for every backlog from 6 to 26, a full queue and an event in flight, such a run reaches the reaping of a worker with work left |
| `Reaping.BacklogBound` | pkg/serviceregistry/events_handler.go:104-105 | no recorded backlog exceeds 26 |
| `Reaping.LargeBacklogLosesEvents` | pkg/serviceregistry/events_handler.go:113-124 | and on to where all events after the sixth are lost, the main context never cancelled |
| `EventHandlers.DispatcherRefines` | pkg/serviceregistry/events_handler.go:65-127 | in every reachable state each step of the machine's dispatcher does to the map of workers what the method for that case is specified to do |
| `EventHandlers.GetOrCreateView` | pkg/serviceregistry/events_handler.go:129-158 | the machine's lookup step does to the map of workers what the method is specified to do |
| `EventHandlers.CleanUpView` | pkg/serviceregistry/events_handler.go:107-124 | likewise the clean-up step |
| `EventHandlers.BeginShutdownView` | pkg/serviceregistry/events_handler.go:73-85 | likewise the cancel step; it returns at once iff the map is empty |
| `EventHandlers.EventHandler.GetOrCreateNamespaceWorker` | pkg/serviceregistry/events_handler.go:129-158 | finds the worker filed under the name, or adds a fresh one and counts it |
| `EventHandlers.EventHandler.HandleEvent` | pkg/serviceregistry/events_handler.go:91-105 | takes the namespace from the event's object; skips an event without one, blocks on a full queue, otherwise appends the event to that namespace's worker's queue and sets the last event |
| `EventHandlers.EventHandler.CompleteSend` | pkg/serviceregistry/events_handler.go:104-105 | what follows a block once there is room: the event is appended, then the last event set |
| `EventHandlers.EventHandler.CancelIdle` | pkg/serviceregistry/events_handler.go:110-120 | in whatever order the map is visited, cancels and collects exactly the workers idle for more than five minutes |
| `EventHandlers.EventHandler.RemoveIdleWorkers` | pkg/serviceregistry/events_handler.go:107-124 | keeps exactly the workers whose last event is at most five minutes ago; every removed one is cancelled |
| `EventHandlers.EventHandler.PropagateCancel` | pkg/serviceregistry/events_handler.go:73-85 | cancels every worker of the map; returns at once iff there is none |
| `Annotations.FilterAnnotations` | pkg/controllers/utils.go:35-73 | the loop keeps exactly the annotations some filter entry admits: everything, the key itself, or prefix/* and */name for a key with exactly one slash |
| `Annotations.KeptMeans` | pkg/controllers/utils.go:44-70 | a key is admitted iff the list has everything, the key, or for a key whose only slash is at j what is before it and a star, or a star and what is after it |
| `Annotations.SplitIsPair` | pkg/controllers/utils.go:54-58 | splitting finds two parts iff the key has exactly one slash, and they are its prefix and name |
| `Annotations.FilterAlgebra` | pkg/controllers/utils.go:35-73 | filtering is monotone in the list, independent of its order and repetitions, distributes over concatenation, and is idempotent |
| `Naming.AddressInjective` | pkg/controllers/utils.go:177 | "ip:port" determines ip and port, even with colons in the ip |
| `Naming.DecimalMeans` | pkg/controllers/utils.go:177 | a port prints as the decimal numeral that reads back as it, without leading zeros |
| `Services.GetIPsFromService` | pkg/controllers/utils.go:75-108 | lists each distinct address once, in any order: the external ones, those of ingress points, and those their hostnames resolve to; fails iff some hostname does not resolve |
| `Services.PassesMeans` | pkg/controllers/utils.go:145-171 | a service passes iff it is a load balancer with a kept annotation, its ingress hostnames resolve, and it has an address |
| `Services.IsEndpointOfMeans` | pkg/controllers/utils.go:173-191 | an endpoint field by field: namespace, service, name, address, port, and exactly the kept annotations |
| `Services.CheckNsLabelsMeans` | pkg/controllers/utils.go:125-134 | enabled by label, or by default unless the label disables |
| `Services.CheckService` | pkg/controllers/utils.go:145-194 | passes iff a load balancer with a kept annotation and an address; the endpoints are derived port by port |
| `Services.DerivesExactly` | pkg/controllers/utils.go:173-191 | the derived endpoints are ports times distinct addresses, whatever the order of addresses |
| `Services.NamesAreLossless` | pkg/controllers/utils.go:176-188 | without digest collisions endpoints of one name are one endpoint |
| `Services.GetEndpointsMapFromSlice` | pkg/controllers/utils.go:196-202 | builds the map by name, the last endpoint of a name winning |
| `Services.LastOfNameWins` | pkg/controllers/utils.go:196-202 | under each name stands the last endpoint of that name |
| `Services.ByNameIsExact` | pkg/controllers/utils.go:173-202 | without collisions that map holds every derived endpoint under its own name and nothing else |
| `Services.ByNameOrderFree` | pkg/controllers/utils.go:103-106 | and is the same for all orders of the addresses |
| `Batches.BatchHit` | pkg/serviceregistry/namespace_worker.go:100-151 | in a batch of one service's endpoint events each endpoint undergoes its event once, wherever it stands and however often it is repeated |
| `Batches.BatchOrderFree` | pkg/controllers/service.go:226-231 | two batches with the same events, in any order and with any repetitions, leave the same registry |
| `ServiceHandlers.WatchedMeans` | pkg/controllers/service.go:320-331 | a service is handled iff its namespace was found and is enabled by label, or by default and not disabled |
| `ServiceHandlers.ServiceEventHandler.Create` | pkg/controllers/service.go:81-137 | sends the namespace, the service and each derived endpoint, parents first, iff the service passes in a watched namespace |
| `ServiceHandlers.ServiceEventHandler.HandleDelete` | pkg/controllers/service.go:287-318 | sends deletes for each derived endpoint and then for the service, which is sent even when the service does not pass |
| `ServiceHandlers.ServiceEventHandler.SendDiff` | pkg/controllers/service.go:251-279 | for some order of each map: updates or deletes for the old names, then creates for current names the guard does not know |
| `ServiceHandlers.ServiceEventHandler.Update` | pkg/controllers/service.go:140-280 | what is sent in each case: deletion requested, unwatched, neither, one or both versions passing |
| `ServiceConvergence.UpdateReplay` | pkg/controllers/service.go:236-279 | object by object, from any registry and for all iteration orders, what an update's events leave |
| `ServiceConvergence.UpdateConvergesIffNothingNew` | pkg/controllers/service.go:251-279 | from exactly the old endpoints an update as written ends with exactly the current endpoints whose names were old, with current address, port and metadata; so it converges iff there is no new name |
| `ServiceConvergence.NothingNewSent` | pkg/controllers/service.go:272-279 | the second loop never sends anything |
| `ServiceConvergence.RepairedUpdateConverges` | pkg/controllers/service.go:272-279 | repair: with the guard on the old endpoints an update always ends with exactly the current ones |
| `ServiceRuns.UpdateHandlerOutcome` | pkg/controllers/service.go:175-279 | the same from Kubernetes' services: what is left are the current endpoints whose names were old, with the address, port and metadata now reported; all current ones iff every current name is an old one |
| `ServiceRuns.UpdateOrderFree` | pkg/controllers/service.go:140-280 | any two outputs the update handler may produce, in whichever of its cases, leave the same registry |
| `ServiceRuns.DeleteOrderFree` | pkg/controllers/service.go:302-317 | so do any two outputs of the delete handler, digest collisions or not |
| `ServiceRuns.CreateOrderFree` | pkg/controllers/service.go:131-136 | any two outputs of the create handler leave the same registry |
| `ServiceRuns.CreateHandlerOutcome` | pkg/controllers/service.go:103-136 | from any registry the create handler's events register the parents and each derived endpoint, with its own address, port and metadata, and nothing else |
| `ServiceRuns.CreateDeleteRoundTrip` | pkg/controllers/service.go:103-317 | creating an absent service and deleting it again restores the registry, the namespace staying registered |
| `UpdateOutcomes.UpdateOutcome` | pkg/controllers/service.go:140-280 | every case of the update handler: nothing changes, the service is unregistered under its old or current endpoints, registered, or brought from the old to the current endpoints |
| `UpdateOutcomes.DeleteOutcome` | pkg/controllers/service.go:287-318 | exactly the derived endpoints the operator owns go, and the service if it owns it and no endpoint is left; nothing in an unwatched namespace |
| `UpdateOutcomes.CreateOutcome` | pkg/controllers/service.go:81-137 | a passing service of a watched namespace is registered; otherwise nothing changes |
| `NamespaceHandlers.NamespaceEventHandler.Update` | pkg/controllers/namespace.go:95-115 | by the label and the default: sends only when the watched state changes, creates when gained, deletes when lost, nothing if listing fails |
| `NamespaceHandlers.NamespaceEventHandler.Delete` | pkg/controllers/namespace.go:118-131 | sends the teardown iff the namespace was watched |
| `NamespaceHandlers.NamespaceEventHandler.HandleUpdateEvent` | pkg/controllers/namespace.go:133-199 | nothing if listing fails; otherwise parents first or, through the deferred sends, leaves first, with deletes for endpoints in both cases |
| `NamespaceConvergence.TeardownExact` | pkg/controllers/namespace.go:155-198 | from any registry a teardown removes exactly the listed endpoints the operator owns, its listed services left without endpoints, and its namespace left without services |
| `NamespaceConvergence.FullTeardown` | pkg/controllers/namespace.go:133-199 | if the operator owns everything and all is listed, nothing of the namespace is left and no other namespace changes |
| `NamespaceConvergence.ItemsListServices` | pkg/controllers/namespace.go:172-197 | what is listed is exactly the passing services and their endpoint names |
| `NamespaceConvergence.TeardownHandlerOutcome` | pkg/controllers/namespace.go:133-199 | the handler's output tears down exactly what Kubernetes' services account for |
| `NamespaceConvergence.TeardownOrderFree` | pkg/controllers/namespace.go:191-196 | any two outputs of the handler tear down alike |
| `NamespaceConvergence.DeleteHandlerOutcome` | pkg/controllers/service.go:302-317 | the service delete handler removes exactly the derived endpoints the operator owns, and its service if left without endpoints |
| `NamespaceEnable.EnableReplay` | pkg/controllers/namespace.go:155-198 | service by service, from any registry, what enabling a namespace leaves of it and of its endpoints for a given kind of endpoint event |
| `NamespaceEnable.EnableFrame` | pkg/controllers/namespace.go:155-198 | the namespace is registered, and nothing outside the listed services changes |
| `NamespaceEnable.EnableReplayAsWritten` | pkg/controllers/namespace.go:155-198 | as written, object by object and from any registry: the namespace and the listed services are registered, the listed endpoints the operator owned are gone |
| `NamespaceEnable.EnableAsWritten` | pkg/controllers/namespace.go:191-196 | as written no listed endpoint is the operator's afterwards; all are registered iff there are none |
| `NamespaceEnable.EnableHandlerOutcome` | pkg/controllers/namespace.go:104-198 | the handler's output registers the namespace and every passing service, and none of their endpoints; so all endpoints are registered iff no passing service has a port |
| `NamespaceEnable.EnableOrderFree` | pkg/controllers/namespace.go:191-196 | any two outputs of the handler enable alike |
| `NamespaceEnable.RepairedEnableConverges` | pkg/controllers/namespace.go:191-196 | repair: with the handler's event type for endpoints, everything listed is registered |
| `NamespaceEnable.RepairedEnableHandler` | pkg/controllers/namespace.go:155-198 | repair: the namespace, every passing service and each of their endpoints, as reported, are registered |
| `Locality.ServiceLocality` | pkg/serviceregistry/namespace_worker.go:74-232 | events for a service interleaved with events for others, or that register the namespace, do to the service what they do alone |
| `EndToEnd.SettledRegistry` | pkg/serviceregistry/events_handler.go:91-105 | after any orderly run that came to rest without failed calls, each object is what its namespace's received events, in order, make of it |
| `EndToEnd.SettledService` | pkg/serviceregistry/events_handler.go:91-105 | after such a run, and any history, a service is what its own events make of it, whatever events for other services came in between |
| `EndToEnd.UpdateEndToEnd` | pkg/controllers/service.go:140-280 | an update through handler, dispatcher, workers and registry, among events for other services, leaves the current endpoints of old names, as now reported; all current ones iff none has a new name |
| `EndToEnd.TeardownEndToEnd` | pkg/controllers/namespace.go:133-199 | a teardown handler's output, through all layers and after any history, removes exactly what Kubernetes' services account for and what that leaves empty |
| `EndToEnd.CanSettle` | pkg/serviceregistry/events_handler.go:65-127 | every sequence of events of a namespace has an orderly run that receives, processes and settles it |
| `Arrival.RestToRest` | pkg/serviceregistry/events_handler.go:91-105 | between two moments of rest the registry changed by the replay of what was received, for whatever run, if all of it is of one namespace |
| `Arrival.CreateArrives` | pkg/controllers/service.go:81-137 | a new service through all layers: namespace, service and an endpoint per address and port are registered under their keys, each with its address, port, the persistent metadata and the kept annotations |
| `Arrival.UpdateArrives` | pkg/controllers/service.go:140-280 | every case of an update through all layers |
| `Arrival.DeleteArrives` | pkg/controllers/service.go:287-318 | a deletion through all layers |
| `Arrival.TeardownArrives` | pkg/controllers/namespace.go:118-199 | a teardown after any history: no reported endpoint is the operator's, and its services and namespace that stay are not empty |
| `Arrival.TeardownExactlyArrives` | pkg/controllers/namespace.go:118-199 | from rest to rest a teardown leaves exactly the rest, in the whole registry |
| `Arrival.EnableArrives` | pkg/controllers/namespace.go:95-199 | enabling through all layers, as written |
| `Etcd.ParseEtcdSettings` | internal/utils/utils.go:125-172 | the error cases in order, otherwise the normalised endpoints |
| `Etcd.ParsedMeans` | internal/utils/utils.go:125-172 | settings parse iff they have an entry and ask for no authentication or username and password; the result has exactly the given addresses, each with a port |
| `Etcd.DefaultedMeans` | internal/utils/utils.go:148-156 | what counts are the entries with a host, on their port or else 2379 |
| `Etcd.DedupKeeps` | internal/utils/utils.go:146-169 | the result is an order-preserving subsequence of the defaulted entries with a host, with the same set of addresses |
| `Etcd.DedupKeepsChanges` | internal/utils/utils.go:158-168 | no kept entry repeats the port last kept for its host |
| `Etcd.DedupIdempotent` | internal/utils/utils.go:146-169 | dropping repetitions again drops nothing |
| `Etcd.ReparseIff` | internal/utils/utils.go:125-172 | parsing the result again changes nothing iff some entry had a host |
| `Etcd.DuplicateFreeIff` | internal/utils/utils.go:158-168 | the result has no duplicates iff no host goes back to an earlier port |
| `Etcd.RepairedDedup` | internal/utils/utils.go:146-169 | repair: remembering all ports of a host, the result is always free of duplicates, in order, with the same set of addresses |
| `Etcd.RepairedAgreesIff` | internal/utils/utils.go:158-168 | the source does what the repair does iff no host goes back to an earlier port |
| `Departures.UpdateMissesNewEndpoint` | pkg/controllers/service.go:273 | a service that gains a port: the handler's output leaves the new endpoint unregistered |
| `Departures.EnableMissesEndpoint` | pkg/controllers/namespace.go:193 | a service with one port: enabling its namespace registers the service and not its endpoint |
| `Departures.EtcdKeepsDuplicate` | internal/utils/utils.go:158-168 | ports 1, 2 and 1 of one host: all three entries are kept |

## Left out

- The registry client library and its etcd, Service Directory and Cloud Map backends: replaced by the contract above.
- The Kubernetes client, the controller manager and the work queue: listing services and getting a namespace are oracles that may fail.
- The channel of 100 events between the controllers and the dispatcher: the dispatcher may receive any event at any time.
- Real clocks and tickers: the clean-up may happen at any time, which includes every minute; only the reaping bound constrains time.
- The goroutine of a worker and the dispatcher's loop run together in the state machine only; the objects' methods are sequential, so `HandleEvent` returns where the source would block and `CompleteSend` is called once there is room.
- SHA-256 and hexadecimal encoding: an arbitrary function with an explicit hypothesis where collisions matter.
- Retrying hostname lookups: one answer per hostname and check.
- The 32-bit width of ports: they are compared and printed, never computed with.
- A nil entry among the etcd endpoints, which makes the source panic: entries are present.
- Logging, YAML, other settings, secrets, network detection, `main.go`, scripts and manifests: input, output or plain branch checks.
- UpdateConvergesIffNothingNew: metadata stored earlier may survive below the current ones if the library merges; `Stored` says so for both modes.
