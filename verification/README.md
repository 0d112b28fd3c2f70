# lbconfig-operator: verified model

A Dafny 4.11 model of the operator that keeps external load balancers (monitors, pools with members,
VIPs) in line with a cluster's nodes and with `ExternalLoadBalancer` objects. `dafny verify
dfyconfig.toml` checks all of it.

The outside world is arbitrary and universally quantified. A `World` says what happens to the n-th
call to the device (it succeeds, fails before its effect, or fails after it), in which order members
are listed, and whether the device is strict (no duplicate creation, no edit or deletion of an absent
object, no dangling reference). An `ApiWorld` says the same of API requests and what users and other
controllers do before each of them. Every effective call is logged with the device before and after
it, so "at every step" is a statement about the log.

| file | contents |
|---|---|
| `types.dfy`, `decimal.dfy`, `names.dfy` | shared values, decimal printing, object names |
| `devices.dfy` | the device behind the `Provider` interface, faults, sequences of calls |
| `tasks.dfy` | what a handler call has to establish, its plan, runs of handler calls |
| `progress.dfy`, `rollout.dfy`, `grounding.dfy` | distance and retries; updates step by step; references |
| `cleanup.dfy`, `handlers.dfy` | the teardown calls; the imperative backend controller |
| `passes.dfy`, `integrity.dfy`, `teardown.dfy`, `isolation.dfy` | whole passes and runs of them |
| `requests.dfy` | how many requests a phase makes, and which errors it passes over |
| `histories.dfy` | the device log as a chain of calls, and the fate of one object in it |
| `nodes.dfy`, `triggers.dfy` | node selection and change filter; watches, queue and passes as a state machine |
| `steady.dfy` | watches, queue, passes and device together: what holds at rest |
| `lifecycle.dfy`, `reconciler.dfy`, `deletion.dfy`, `protection.dfy` | the reconcile pass against the API server; its imperative form; deletion end to end; what the finalizer protects |
| `haproxyconfig.dfy`, `haproxyteardown.dfy`, `haproxyruns.dfy`, `haproxy.dfy` | HAProxy configurations; cleanups; passes and runs of passes; the transactional provider |
| `f5.dfy` | the F5 string encoding |

## What the code does not promise

Each of these follows the code. The lemmas named prove for all inputs exactly when the promise is kept.

- Objects of a port that left the spec are never removed (`Teardown.Residue`, `Teardown.HistoryResidue`),
  and on a strict device they block the teardown for good (`Teardown.DroppedPortBlocks`). So do a port
  listed twice and two nodes with one address that have to be added to a pool
  (`Teardown.TeardownFinishesIff`).
- The comment on the event filter promises to notice relevant node updates. A hidden update is harmless
  exactly if the node is none of the load balancer's or keeps its number of true Ready conditions
  (`Nodes.HiddenIsIrrelevantIff`), so always with one Ready condition per node
  (`Nodes.HiddenIsIrrelevant`), and not always with two (`Nodes.TwoReadyConditionsHideAChange`).
- The map function ignores namespaces: of several load balancers with one name it requests the first
  (`Triggers.MapNode`, `Triggers.SameNameIsDropped`).
- docs/Readme.md:148 says that `nodelabels` are used instead of `type`; the code asks for both
  (`Nodes.SelectionIs`, `Nodes.ExtraLabelsReplaceTypeIff`).
- The documentation says that a change of a node's address reaches the load balancer; on HAProxy it
  cannot, since the new server's name is taken by the old one (`HAProxyConfig.PoolSucceedsIff`,
  `HAProxyConfig.MovedNodeIsStuck`).
- On HAProxy the status holds a pool's members from before the update
  (`HAProxy.HAProxyProvider.HandlePool`). The comment of the cleanup loop suggests that member errors are
  harmless; each of them costs the transaction (`HAProxyTeardown.CleanupSucceedsIff`). So a deleting pass
  fails if its own update removes a server (`HAProxyRuns.TeardownAfterConfigureIff`,
  `HAProxy.HAProxyProvider.Pass`, for instance `HAProxyRuns.TradedNodeBlocksTeardown`); the pass after it
  does not (`HAProxy.HAProxyProvider.Retire`).
- F5 reads a monitor, a pool's monitor, an address or a member back as written only under the
  conditions of the `F5` lemmas. In the default partition the pool's monitor of a load balancer
  named `prod-main` is found to differ whenever it is read, because the trailing `n` of its name is
  trimmed away (`F5.ProdMainIsMisread`).
- The finalizer is added only after the device was configured. Whatever object goes without carrying the
  finalizer leaves on the device what was configured for it, and one that carries it does not
  (`Protection.GoingLeavesIff`, for instance `Deletion.UnprotectedDeletionLeaks`). A deleted object that
  still waits for another finalizer is even configured again after its teardown
  (`Deletion.WaitingObjectIsConfiguredAgain`).
- Negative ports make names collide (`Names.PoolNamesCoincide`).
- `Status.Ports` is taken from the object as read again at the end of the pass and differs from the
  ports of the VIPs in the same status exactly if the spec's ports changed meanwhile
  (`Lifecycle.StatusPortsAgreeIff`, for instance `Deletion.SpecChangeSplitsStatus`).

## Assumptions

- Devices and API server answer each request atomically; passes run one at a time.
- Users and other controllers do not add or remove this operator's own finalizer after creation; the
  API server refuses writes of a stale version and never repeats a version.
- In `triggers.dfy` and `steady.dfy`: load balancer names are distinct, nodes have at most one Ready
  condition, and the list call inside the map function succeeds. Events may be delivered in any order.
  In `steady.dfy` ports are not negative and the device honours the interface.
- HAProxy: requests on a transaction that was deleted are refused; the server list of an existing
  backend is not nil; only this operator commits; replacing a backend keeps its servers.

## Model

| member | source | states |
|---|---|---|
| `Handlers.ContainsMember` | internal/controller/backend/backend_controller/backend_controller.go:487-494 | true exactly if some element has the member's host and port; names and labels play no part |
| `Handlers.Lacking` | internal/controller/backend/backend_controller/backend_controller.go:243-256 | the members of one list whose (host, port) the other lacks, in order: additions one way round, removals the other |
| `Handlers.BackendController.HandleMonitors` | internal/controller/backend/backend_controller/backend_controller.go:142-203 | the new device, call log and error are those of the monitor task: one getter, then create, edit or nothing, for every fault schedule |
| `Handlers.BackendController.UpdatePool` | internal/controller/backend/backend_controller/backend_controller.go:243-315 | retarget if the monitor differs, then all additions, then all removals, giving up at the first error |
| `Handlers.BackendController.HandlePool` | internal/controller/backend/backend_controller/backend_controller.go:206-345 | the new device, call log and error are those of the pool task, whether the pool exists or is created and filled |
| `Handlers.BackendController.HandleVip` | internal/controller/backend/backend_controller/backend_controller.go:348-410 | the new device, call log and error are those of the VIP task |
| `Handlers.BackendController.DropMembers` | internal/controller/backend/backend_controller/backend_controller.go:437-452 | one deletion per recorded member, errors ignored |
| `Handlers.BackendController.HandleCleanup` | internal/controller/backend/backend_controller/backend_controller.go:413-485 | VIPs, then members with errors ignored, then pools, then a non-empty monitor; an error of the first, third or fourth stage ends it |
| `Cleanup.MemberDelsCount` | internal/controller/backend/backend_controller/backend_controller.go:437-452 | the member stage has one deletion for each recorded member of each pool, and nothing else |
| `Cleanup.EachIsTried` | internal/controller/backend/backend_controller/backend_controller.go:437-452 | member deletions are all requested, whatever fails |
| `Cleanup.CleanupLogs` | internal/controller/backend/backend_controller/backend_controller.go:421-482 | without faults, on a device that is not strict, a cleanup's calls are each VIP in order, each recorded member once, each pool in order, and the monitor |
| `Handlers.Provider.GetPoolMembers` | internal/controller/backend/backend_controller/backend_controller.go:70-71 | lists the members as the environment orders them at that moment; a faithful provider lists each member of the pool once |
| `Handlers.Provider.Perform` | internal/controller/backend/backend_controller/backend_controller.go:53-86 | a mutating call takes effect, fails before its effect or fails after it, or is refused by a strict device; every effective call is logged |
| `Tasks.PlanServes` | internal/controller/backend/backend_controller/backend_controller.go:166-345 | whatever a handler reads, each call it decides on concerns its own object, puts the wanted values there, adds wanted or removes unwanted members, and deletes no object |
| `Tasks.RunTasksKeeps` | internal/controller/externalloadbalancer_controller.go:288-353 | a property kept by every call that serves a task holds before and after every call of the run, wherever it is cut short |
| `Tasks.TaskConverges` | internal/controller/backend/backend_controller/backend_controller.go:243-345 | a handler that ends without error leaves its object exactly as wanted, from any device state |
| `Tasks.RunConverges` | internal/controller/externalloadbalancer_controller.go:288-353 | a run without error leaves every task's object as wanted, repeated ports included |
| `Tasks.RunFrames` | internal/controller/externalloadbalancer_controller.go:288-353 | no call of a run, faults included, touches an object of no task |
| `Progress.TaskDistZero` | internal/controller/backend/backend_controller/backend_controller.go:166 | distance zero is the same as being in sync |
| `Progress.PlanDescends` | internal/controller/backend/backend_controller/backend_controller.go:243-345 | each planned call lowers the task's distance by one when its turn comes, and a strict device accepts all of them |
| `Progress.PlanIsMinimal` | internal/controller/backend/backend_controller/backend_controller.go:243-315 | a handler plans exactly as many calls as its object is far from wanted |
| `Progress.OneTaskMoves` | internal/controller/backend/backend_controller/backend_controller.go:142-410 | a call on one task's object changes the total distance exactly as it changes that task's |
| `Progress.RunStepsDown` | internal/controller/externalloadbalancer_controller.go:288-353 | in one pass with any faults, effective calls plus remaining distance is constant and each effective call is one step |
| `Passes.RetriesStepDown` | internal/controller/externalloadbalancer_controller.go:270-370 | over any number of faulty phases effective calls plus remaining distance is constant, so they make at most the initial distance of effective calls; a phase without error, and distance zero, mean configured |
| `Rollout.UpdateMakesBeforeBreaking` | internal/controller/backend/backend_controller/backend_controller.go:243-308 | at every call of an update, faults included, the members lie between old and wanted, nothing old is gone while adding, everything wanted is present while removing |
| `Rollout.NeverEmptyOnTheWay` | internal/controller/backend/backend_controller/backend_controller.go:279-308 | a pool that has and wants members is never empty after any call of its update |
| `Rollout.UpdateIsExact` | internal/controller/backend/backend_controller/backend_controller.go:243-315 | an update without error that had no member to add twice made one creation per wanted and missing member, one deletion per unwanted member, an edit just if the monitor differed, and no other call |
| `Rollout.UpdateIsOrdered` | internal/controller/backend/backend_controller/backend_controller.go:259-308 | at every point of an update, faults included, the edit of the monitor came first and the deletions come last |
| `Rollout.InSyncPlansNothing` | internal/controller/backend/backend_controller/backend_controller.go:166-187 | a handler plans no call exactly if its object is in sync |
| `Rollout.Quiescent` | internal/controller/backend/backend_controller/backend_controller.go:142-410 | a pass over a device in sync makes no mutating call, whatever fails |
| `Rollout.SecondPassIsSilent` | internal/controller/externalloadbalancer_controller.go:288-353 | the pass after one that ended without error makes no mutating call |
| `Passes.TasksAre` | internal/controller/externalloadbalancer_controller.go:288-353 | the pass's tasks are the monitor, one pool per port and one VIP per port, and nothing else |
| `Passes.TasksConsistent` | internal/controller/externalloadbalancer_controller.go:303-353 | repeated ports repeat the very same task |
| `Passes.TasksSeparate` | internal/controller/externalloadbalancer_controller.go:303-353 | distinct ports give distinct objects |
| `Passes.NewMembersIff` | internal/controller/externalloadbalancer_controller.go:303-316 | no handler has to add a member twice exactly if, port by port, the nodes not yet in the pool have distinct addresses |
| `Passes.DistinctHostsSuffice` | internal/controller/externalloadbalancer_controller.go:303-316 | nodes with distinct addresses never make a handler add a member twice, whatever the device holds |
| `Progress.ServingKeepsDistinctAdds` | internal/controller/backend/backend_controller/backend_controller.go:243-308 | no call of a pass makes a handler's additions ambiguous that were not |
| `Passes.InSyncIsConfigured` | internal/controller/externalloadbalancer_controller.go:288-353 | all tasks in sync means: monitor as in the spec, per port a pool with exactly the selected nodes' (host, port) and a VIP with the address, port and that pool |
| `Passes.ConfigureConverges` | internal/controller/externalloadbalancer_controller.go:270-370 | from any device state a configure phase without error leaves exactly that |
| `Passes.ConfigureSucceedsIff` | internal/controller/externalloadbalancer_controller.go:270-370 | on a strict device a fault-free configure phase goes through exactly if no handler has to add a member twice |
| `Passes.PassFrames` | internal/controller/externalloadbalancer_controller.go:270-370 | no call of a pass, deleting or not, faults included, changes an object that is not the pass's own |
| `Passes.DeletingPassRemoves` | internal/controller/backend/backend_controller/backend_controller.go:413-485 | a deleting pass without error leaves none of its own objects |
| `Passes.ConfiguredIsQuiet` | internal/controller/backend/backend_controller/backend_controller.go:142-410 | a pass over a configured device makes no mutating call |
| `Passes.ConfigureStepsDown` | internal/controller/externalloadbalancer_controller.go:270-370 | the one-step law holds for the whole phase with connect and close |
| `Requests.ConfigureHidesNoError` | internal/controller/externalloadbalancer_controller.go:270-370 | if a configure phase ends without error, every one of its requests from Connect to Close went through |
| `Requests.ConfiguredPassReads` | internal/controller/externalloadbalancer_controller.go:270-370 | over a configured device that is Connect, one read of the monitor, two of each pool, one of each VIP, and Close |
| `Requests.FinalizeHidesMemberErrorsOnly` | internal/controller/externalloadbalancer_controller.go:539-592 | a finalizing phase that ends without error made one request for each recorded thing, with Connect and Close, and only requests of the member stage may have failed |
| `Names.PoolNamesCoincide` | internal/controller/externalloadbalancer_controller.go:316 | over all names and integer ports: two pool names are equal exactly for equal name and port, or when the dash of a negative port is taken for the separator |
| `Names.VipNamesCoincide` | internal/controller/externalloadbalancer_controller.go:338-340 | the same for VIP names |
| `Names.NamesInjective` | internal/controller/externalloadbalancer_controller.go:288-340 | for non-negative ports names are injective in (name, port) |
| `Names.NegativePortsCollide` | internal/controller/externalloadbalancer_controller.go:316 | a concrete collision with a negative port |
| `Names.NamesOfWeb` | internal/controller/externalloadbalancer_controller.go:288-340 | the names for load balancer web and port 443, letter by letter |
| `Names.PortsInjective` | internal/controller/externalloadbalancer_controller.go:316-340 | within one load balancer the port alone determines the name |
| `Decimal.AtoiItoa` | internal/controller/backend/f5/f5_controller.go:122-124 | every integer survives being printed and read |
| `Grounding.RunReferential` | internal/controller/externalloadbalancer_controller.go:288-353 | a run that creates before it refers keeps every VIP's pool and every pool's monitor in existence at each call |
| `Grounding.RunSucceeds` | internal/controller/externalloadbalancer_controller.go:288-353 | without faults such a run ends without error, on a strict device too |
| `Integrity.FinalizeSound` | internal/controller/backend/backend_controller/backend_controller.go:421-482 | the stages of a cleanup keep references intact at each call |
| `Integrity.RunKeepsReferences` | internal/controller/externalloadbalancer_controller.go:270-439 | after every single call of any run of configure, abort, retry and cleanup references are intact, if the port list only grows and nothing foreign refers to the load balancer's objects |
| `Cleanup.CleanupFrames` | internal/controller/backend/backend_controller/backend_controller.go:413-485 | a cleanup changes nothing its status does not list, whatever fails |
| `Cleanup.CleanupLeavesNothing` | internal/controller/backend/backend_controller/backend_controller.go:413-485 | a cleanup without error leaves nothing its status lists |
| `Teardown.FinishedWasDetached` | internal/controller/backend/backend_controller/backend_controller.go:421-482 | a deleting pass that ended without error on a strict device had nothing foreign attached before it |
| `Teardown.FinishedHadDistinctPorts` | internal/controller/backend/backend_controller/backend_controller.go:421-434 | a deleting pass that ended without error on a strict device had no port twice |
| `Teardown.FinishedHadNewMembers` | internal/controller/backend/backend_controller/backend_controller.go:279-291 | a deleting pass that ended without error on a strict device had no member to add twice |
| `Teardown.TeardownFinishesIff` | internal/controller/externalloadbalancer_controller.go:381-439 | on a strict device a fault-free deleting pass finishes exactly if no port is listed twice, no member has to be added twice and nothing foreign is attached, whatever earlier passes left half done |
| `Teardown.CleanupIsRetryable` | internal/controller/externalloadbalancer_controller.go:381-439 | after any run of faulty passes over a growing port list a fault-free deleting pass removes everything; it finishes exactly if no port is listed and no member to be added twice |
| `Teardown.DroppedPortBlocks` | internal/controller/externalloadbalancer_controller.go:303-353 | a port dropped from the spec blocks the teardown on a strict device after any run of passes without that port, whatever fails in them |
| `Teardown.Residue` | internal/controller/externalloadbalancer_controller.go:302-353 | after a finished teardown a pool or VIP is left exactly if it was there and its port is not in the pass's list, and then unchanged |
| `Teardown.HistoryResidue` | internal/controller/externalloadbalancer_controller.go:302-439 | over any history of specs and faulty passes, failed teardowns included, the pools and VIPs left are exactly those that were there initially and never removed, or created on the way and not removed since, for ports absent from the final list |
| `Teardown.SpecResidue` | internal/controller/externalloadbalancer_controller.go:302-439 | over any error-free history, by the specs alone: pool and VIP of a port are there exactly if the last pass that listed the port did not delete, or none listed it and they were there at the start |
| `Histories.PassChains` | internal/controller/externalloadbalancer_controller.go:270-439 | the log of a pass, faults included, is a chain: each call starts on the device that the one before it left |
| `Histories.Fate` | internal/controller/backend/backend_controller/backend_controller.go:142-485 | an object is on the device exactly if it was there and never removed, or was created and not removed since |
| `Teardown.NoResidueWhenPortsGrow` | internal/controller/externalloadbalancer_controller.go:302-439 | nothing new is left if the final list has every port ever wanted, failed teardowns included |
| `Isolation.PassLeavesOthers` | internal/controller/externalloadbalancer_controller.go:288-340 | at no call of a pass, faults included, does anything of a load balancer with another name change |
| `Isolation.PassDetermines` | internal/controller/externalloadbalancer_controller.go:270-439 | what a pass without error leaves under a name depends only on what was under that name |
| `Isolation.InterleavingIsInvisible` | internal/controller/externalloadbalancer_controller.go:270-439 | any error-free interleaving of configures and cleanups gives a load balancer what its own passes alone give it |
| `Nodes.GetNodeIP` | internal/controller/utility_functions.go:75-95 | by positions: empty for a node without a true Ready condition; else the last external address; without one the last internal address; with neither, empty |
| `Nodes.NodeIPIs` | internal/controller/utility_functions.go:75-95 | there is exactly one such address |
| `Nodes.HasNodeChanged` | internal/controller/utility_functions.go:50-73 | by positions: false exactly if the last Ready conditions have one status, the node addresses are equal and so are the labels, nil and empty labels being different |
| `Nodes.ComputeLabels` | internal/controller/utility_functions.go:98-109 | the role label overridden by the extra labels |
| `Nodes.ContainsLabels` | internal/controller/utility_functions.go:112-120 | true exactly if every wanted key is present: values are not compared |
| `Nodes.SelectNodes` | internal/controller/externalloadbalancer_controller.go:232-247 | one entry per true Ready condition of each listed node, in order |
| `Nodes.EligibleJoins` | internal/controller/externalloadbalancer_controller.go:232-247 | nodes are selected one by one, in the order of the list |
| `Nodes.EligibleOfOne` | internal/controller/externalloadbalancer_controller.go:232-247 | a matching node is listed once for each of its true Ready conditions, with its name, address and the labels asked for |
| `Nodes.SelectionIs` | internal/controller/externalloadbalancer_controller.go:208-247 | a pass selects exactly the ready nodes with the role (unless the extra labels redefine it) and all extra labels, each with its address |
| `Nodes.ExtraLabelsReplaceTypeIff` | internal/controller/utility_functions.go:98-109 | extra labels are asked for instead of the role exactly if there is no type or they name its role |
| `Nodes.HiddenIsIrrelevantIff` | internal/controller/externalloadbalancer_controller.go:526-534 | a hidden update leaves a selection alone exactly if the node does not match or has as many true Ready conditions as before |
| `Nodes.HiddenIsIrrelevant` | internal/controller/externalloadbalancer_controller.go:526-534 | with one Ready condition per node an update that the filter hides changes no selection |
| `Nodes.TwoReadyConditionsHideAChange` | internal/controller/utility_functions.go:56-72 | with two Ready conditions the filter does hide a relevant update |
| `Nodes.ShareNeedsKeys` | internal/controller/utility_functions.go:112-120 | the map function's key test never misses a node that the label query returns |
| `Reconciler.Contains` | internal/controller/utility_functions.go:40-47 | membership in a list |
| `Triggers.MapNode` | internal/controller/externalloadbalancer_controller.go:494-523 | requests exactly those load balancers that want the node and are the first of their name in the list |
| `Triggers.WantsIff` | internal/controller/externalloadbalancer_controller.go:505-514 | a load balancer wants a node exactly if the node has the role of its type and all extra labels as keys |
| `Triggers.RequestsAreWants` | internal/controller/externalloadbalancer_controller.go:505-520 | with distinct names, exactly the load balancers that want the node |
| `Triggers.SameNameIsDropped` | internal/controller/externalloadbalancer_controller.go:515-518 | of two load balancers with one name in different namespaces the second is not requested |
| `Triggers.HandledIffConcerned` | internal/controller/externalloadbalancer_controller.go:526-534 | an event enqueues exactly the load balancers it concerns |
| `Triggers.UnconcernedNodeChange` | internal/controller/externalloadbalancer_controller.go:492-534 | a node event that would not enqueue a load balancer leaves its selection as it was |
| `Triggers.NextCovers` | internal/controller/externalloadbalancer_controller.go:489-537 | every step of cluster, users, watch delivery, queue and passes keeps each valid load balancer due or current |
| `Triggers.NoChangeIsMissed` | internal/controller/externalloadbalancer_controller.go:489-537 | in every reachable state each valid load balancer is queued, has an event coming that will queue it, or has the current selection in hand or applied; at rest the applied selection is the current one |
| `Triggers.ChosenIsEligible` | internal/controller/externalloadbalancer_controller.go:208-247 | the selection of the state machine is what a pass selects from a list of the same nodes, each with its address |
| `Steady.MovesKeep` | internal/controller/externalloadbalancer_controller.go:115-537 | every step of cluster, users, watches, queue and passes, failing ones included, keeps each valid load balancer due or the device as its last pass left it, for its current spec |
| `Steady.RestIsRight` | internal/controller/externalloadbalancer_controller.go:115-537 | whatever happened before, once nothing is pending, queued or in progress, the device holds for each valid load balancer what its current spec says for the current nodes, or none of its objects if it is torn down |
| `Reconciler.ApiServer.Receive` | internal/controller/externalloadbalancer_controller.go:155 | a request arrives after arbitrary actions of users and other controllers |
| `Reconciler.ApiServer.UpdateStatus` | internal/controller/externalloadbalancer_controller.go:392-403 | the status is replaced only if the version is the stored one; the answer is the stored object |
| `Reconciler.ApiServer.Update` | internal/controller/externalloadbalancer_controller.go:448-458 | spec and finalizers are replaced only if the version is the stored one; a deleting object without finalizers goes |
| `Reconciler.LoadBalancerReconciler.ConfigureDevice` | internal/controller/externalloadbalancer_controller.go:270-370 | connect, monitor, pools in port order, VIPs in port order, close, stopping at the first error |
| `Reconciler.LoadBalancerReconciler.FinalizeLoadBalancer` | internal/controller/externalloadbalancer_controller.go:539-592 | connect, cleanup from the status, close |
| `Reconciler.LoadBalancerReconciler.FinishPass` | internal/controller/externalloadbalancer_controller.go:409-482 | tear down and drop the finalizer of a deleting object, otherwise make sure of the finalizer |
| `Reconciler.LoadBalancerReconciler.DrivePass` | internal/controller/externalloadbalancer_controller.go:262-403 | configure, read the object again ignoring an error, write the status with its ports, finish |
| `Reconciler.LoadBalancerReconciler.Reconcile` | internal/controller/externalloadbalancer_controller.go:115-486 | the API object, its history, the device, its history and the error after one pass, for every schedule of faults and interference |
| `Lifecycle.LifeIsSafe` | internal/controller/externalloadbalancer_controller.go:381-482 | over the whole life of the object, with any faults and interference: the finalizer is lost only by a deleting object right after an error-free finalizing phase for its own status; a deleting object never gains it; a status that is written tells what the device holds |
| `Lifecycle.FinalizerLeavesCleanDevice` | internal/controller/externalloadbalancer_controller.go:415-459 | when the finalizer goes, the device holds nothing the object's status names |
| `Lifecycle.ConfiguredIsDescribed` | internal/controller/externalloadbalancer_controller.go:381-390 | the new status describes the device: VIPs, pools with their members, monitor, VIP and pool linked by position, node count |
| `Lifecycle.PutIsSafe` | internal/controller/externalloadbalancer_controller.go:448-451 | an update of a stale copy is refused, so the pass changes finalizers only of the object it looked at |
| `Lifecycle.ReconcileIsPass` | internal/controller/externalloadbalancer_controller.go:115-486 | on the device a reconcile is nothing or one pass, so the theorems on passes apply to it |
| `Lifecycle.ReconcileHidesRereadOnly` | internal/controller/externalloadbalancer_controller.go:115-482 | if a pass ends without error, of all its API requests only reading the object again may have failed, whoever interfered in between |
| `Lifecycle.ConfiguredMeetsSpec` | internal/controller/externalloadbalancer_controller.go:288-353 | a pass works towards what the spec says: its monitor's path, port and type, per port a VIP with its address that leads to a pool with exactly the qualifying nodes of the list as members |
| `Lifecycle.WithoutJoins` | internal/controller/externalloadbalancer_controller.go:445 | the other finalizers stay in their order |
| `Deletion.DeletionCompletesIff` | internal/controller/externalloadbalancer_controller.go:409-459 | in a quiet cluster and on a strict device a pass over a deleted object that carries the finalizer ends without error exactly if no port is listed twice, no member has to be added twice and nothing foreign is attached; then the object goes if this was its only finalizer and otherwise keeps exactly the others; if not, it keeps all |
| `Deletion.LivePassSucceedsIff` | internal/controller/externalloadbalancer_controller.go:115-482 | in a quiet cluster and on a strict device a pass over a valid live object ends without error exactly if no member has to be added twice; then the device holds what its spec says |
| `Deletion.LivePassMeetsSpec` | internal/controller/externalloadbalancer_controller.go:115-482 | in a quiet cluster, on any device: an error-free pass over a live object leaves on the device what its spec says for the listed nodes, and the object with its spec, the finalizers it had and this one, and a status with its ports and labels that describes the device |
| `Deletion.MetSpecIsOnlyRead` | internal/controller/externalloadbalancer_controller.go:115-482 | a pass over an object whose spec the device meets changes nothing there and makes a fixed number of requests |
| `Deletion.RecordProtects` | internal/controller/externalloadbalancer_controller.go:372-482 | the part after the configure phase; that the object could not be read again makes no difference |
| `Deletion.InvalidIsRefused` | internal/controller/externalloadbalancer_controller.go:203-206 | an object with neither type nor labels makes the pass fail, and nothing changes |
| `Deletion.MissingIsDone` | internal/controller/externalloadbalancer_controller.go:153-162 | an object that is gone is no error, and nothing is done |
| `Deletion.UnprotectedDeletionLeaks` | internal/controller/externalloadbalancer_controller.go:381-482 | a concrete family of runs: an object deleted between its first configure phase and the finalizer is gone at once, and everything configured for it stays on the device however often the controller runs |
| `Deletion.WaitingObjectIsConfiguredAgain` | internal/controller/externalloadbalancer_controller.go:409-460 | a deleted object that waits for another finalizer only is configured by each pass and not torn down |
| `Protection.NothingUnprotectedGoes` | internal/controller/externalloadbalancer_controller.go:409-482 | over any life with any faults and interference: since the finalizer was last lost, and while no stored object carries it, objects of the device only come |
| `Protection.GoingLeavesIff` | internal/controller/externalloadbalancer_controller.go:409-482 | at any change by which the object goes, its monitor is on the device exactly if the object does not carry the finalizer and the monitor was there, or was created, since any earlier moment after which the finalizer was not lost; a carrying object leaves nothing its status names, another one leaves everything |
| `Lifecycle.StatusPortsAgreeIff` | internal/controller/externalloadbalancer_controller.go:381-390 | the ports of a new status are those of its VIPs exactly if the object as read again still wants the configured ports |
| `Deletion.SpecChangeSplitsStatus` | internal/controller/externalloadbalancer_controller.go:372-403 | a run in which a spec change during the configure phase gives a status with new ports and old VIPs |
| `HAProxy.HAProxyProvider.Connect` | internal/controller/backend/haproxy/haproxy_controller.go:121-142 | a new draft of the running configuration, which itself is unchanged |
| `HAProxy.HAProxyProvider.Close` | internal/controller/backend/haproxy/haproxy_controller.go:150-162 | commits the draft or nothing; without error the draft is running |
| `HAProxy.HAProxyProvider.Change` | internal/controller/backend/haproxy/haproxy_controller.go:258-269 | a change touches the draft only, and an error throws the draft away |
| `HAProxy.HAProxyProvider.HandleMonitors` | internal/controller/backend/haproxy/haproxy_controller.go:182-200 | the shared provider takes over the monitor, unless that is empty throughout |
| `HAProxy.HAProxyProvider.EditPool` | internal/controller/backend/haproxy/haproxy_controller.go:273-323 | settings replaced, every server stamped with the monitor's check, and the caller's members overwritten by the configured ones |
| `HAProxy.HAProxyProvider.GetPoolMembers` | internal/controller/backend/haproxy/haproxy_controller.go:345-378 | overwrites the members of the object it is given with the backend's servers |
| `HAProxy.HAProxyProvider.HandlePool` | internal/controller/backend/haproxy/haproxy_controller.go:213-378 | although the caller's pool is overwritten midway, the backend ends with the members the caller passed; the pool then holds the members from before the update |
| `HAProxy.HAProxyProvider.HandleVip` | internal/controller/backend/haproxy/haproxy_controller.go:476-553 | the frontend and its bind as wanted; a frontend without bind is an error |
| `HAProxy.HAProxyProvider.ConfigurePhase` | internal/controller/externalloadbalancer_controller.go:273-370 | commits nothing or the fully configured configuration; without faults it succeeds exactly if that exists; without error every pool is served, every VIP leads to its pool, and nothing else has changed |
| `HAProxy.HAProxyProvider.DropMembers` | internal/controller/backend/haproxy/haproxy_controller.go:454-469 | ignored errors still cost the draft; otherwise only servers of the listed pools are gone |
| `HAProxy.HAProxyProvider.FinalizePhase` | internal/controller/externalloadbalancer_controller.go:539-585 | commits nothing or the fully cleaned configuration; without faults it succeeds exactly if everything listed, servers included, is there and listed once |
| `HAProxy.HAProxyProvider.Pass` | internal/controller/externalloadbalancer_controller.go:270-439 | with any faults the configurations ever running during a pass are the one before, the configured one and the cleaned one, in this order, and the last of them if it ended without error; other load balancers' objects stay; after a pass without error every pool is served and every VIP leads to its pool, or all are gone if it was deleting; without faults a deleting pass succeeds exactly if the device can be configured, nothing is listed twice and no server has to be removed, and a failing pass leaves the configured configuration running |
| `HAProxy.HAProxyProvider.HandlePools` | internal/controller/externalloadbalancer_controller.go:303-336 | the pools in order; the status tells each created pool's wanted members and each existing pool's servers from before |
| `HAProxy.HAProxyProvider.HandleCleanup` | internal/controller/backend/backend_controller/backend_controller.go:413-485 | without faults it succeeds exactly if everything listed is there and listed once; then the draft is the cleaned one |
| `HAProxy.HAProxyProvider.Retire` | internal/controller/externalloadbalancer_controller.go:415-439 | a failed deleting pass that is tried again succeeds exactly if the device can be configured and nothing is listed twice, whatever servers there were, and then nothing of the load balancer is running |
| `HAProxy.HAProxyProvider.RunJobs` | internal/controller/externalloadbalancer_controller.go:270-439 | a run of passes of any load balancers, each with any faults, is a trace of configured and cleaned configurations |
| `HAProxyConfig.AddServersIs` | internal/controller/backend/haproxy/haproxy_controller.go:381-409 | members can be added exactly if their names are new and differ; then each is there with the monitor's check and nothing else changed |
| `HAProxyConfig.PoolSucceedsIff` | internal/controller/backend/haproxy/haproxy_controller.go:381-409 | a pool is handled without error exactly if no member to be added bears the name of a configured server or of another added one |
| `HAProxyConfig.MovedNodeIsStuck` | internal/controller/backend/haproxy/haproxy_controller.go:381-405 | a configured node whose address changed makes the pool's update fail |
| `HAProxyConfig.PoolIsServed` | internal/controller/backend/haproxy/haproxy_controller.go:273-323 | a handled pool has exactly the wanted members, all checked by the provider's monitor, and no other backend changed |
| `HAProxyConfig.ConfiguredServersAreChecked` | internal/controller/backend/haproxy/haproxy_controller.go:381-443 | in a configured configuration every server of every pool carries this load balancer's check port and TLS setting |
| `HAProxyConfig.ConfiguredVipsAreRouted` | internal/controller/backend/haproxy/haproxy_controller.go:476-553 | in a configured configuration each VIP's frontend leads to its pool and listens on its address and port, and no other frontend has changed |
| `HAProxyTeardown.ThinningIsInvisible` | internal/controller/backend/backend_controller/backend_controller.go:436-468 | which members went before the pools went makes no difference to the result |
| `HAProxyTeardown.DropAllServersIff` | internal/controller/backend/backend_controller/backend_controller.go:436-452 | the member deletions of pools with different names go through exactly if each listed server is there and listed once |
| `HAProxyTeardown.CleanupSucceedsIff` | internal/controller/backend/backend_controller/backend_controller.go:413-485 | a cleanup goes through exactly if every frontend, backend and server it lists is there and listed once |
| `HAProxyRuns.PoolsSucceedIff` | internal/controller/externalloadbalancer_controller.go:303-336 | pools with different names are handled each as if it were the only one |
| `HAProxyRuns.ConfigureSucceedsIff` | internal/controller/externalloadbalancer_controller.go:288-353 | a configure phase goes through exactly if no added member's name clashes and no wanted frontend lacks its bind |
| `HAProxyRuns.ToldIsDroppable` | internal/controller/backend/haproxy/haproxy_controller.go:308-322 | the members that the status tells of a pool can all be deleted exactly if the update removed none |
| `HAProxyRuns.TeardownAfterConfigureIff` | internal/controller/externalloadbalancer_controller.go:302-439 | the teardown in the same pass goes through exactly if no VIP is listed twice and the configure phase had no server to remove |
| `HAProxyRuns.TradedNodeBlocksTeardown` | internal/controller/externalloadbalancer_controller.go:302-439 | a concrete configuration: one node traded for another is configured, and the teardown in the same pass fails |
| `HAProxyRuns.ConfiguredIsClear` | internal/controller/externalloadbalancer_controller.go:302-439 | a configured configuration can be configured again with no server to remove |
| `HAProxyRuns.PassLeavesOthers` | internal/controller/externalloadbalancer_controller.go:270-439 | at every moment of a pass, faults included, backends and frontends of other names are as they were |
| `HAProxyRuns.ServedEverSince` | internal/controller/backend/haproxy/haproxy_controller.go:182-198 | over any run of passes sharing the provider, with any faults: after a pass without error and until a pass names the pool or VIP again, every configuration that runs has exactly the pool's members, checked by the pool's own monitor, and the VIP leads to its pool |
| `HAProxyRuns.OwnMonitorEverSince` | internal/controller/backend/haproxy/haproxy_controller.go:182-198 | the same for load balancers with different names and real ports, whichever used the provider in between |
| `F5.TrimUndoesPrefix` | internal/controller/backend/f5/f5_controller.go:218 | trimming a prefix's characters gives the name back exactly if it is empty or neither begins nor ends with one of them |
| `F5.PathReadsBackIff` | internal/controller/backend/f5/f5_controller.go:132 | the monitor path is read back exactly if it is empty or does not begin with G, E, T or space |
| `F5.PortReadsBack` | internal/controller/backend/f5/f5_controller.go:122-124 | the monitor port is read back |
| `F5.KindReadsBackIff` | internal/controller/backend/f5/f5_controller.go:128 | when the monitor type is read back next to the partition |
| `F5.MonitorOnDevice` | internal/controller/backend/f5/f5_controller.go:144-161 | what is sent for a monitor: GET, a space and the path; the type at the end of the parent; the port on any address unless it is 0 |
| `F5.MonitorRoundTripIff` | internal/controller/backend/f5/f5_controller.go:110-161 | a monitor is read back as created exactly if its port is not 0, its path and its type survive |
| `F5.DefaultPartitionReadsBackIff` | internal/controller/backend/f5/f5_controller.go:216-219 | in the default partition a pool's monitor is recognised exactly if the load balancer's name does not end in one of the partition's characters |
| `F5.ProdMainIsMisread` | internal/controller/backend/f5/f5_controller.go:216-219 | in the default partition the monitor of a load balancer named prod-main is read back differently |
| `F5.DestinationRoundTripIff` | internal/controller/backend/f5/f5_controller.go:378-390 | a VIP's address and port are read back exactly for addresses without a colon whose ends are not characters of the partition |
| `F5.MemberRoundTripIff` | internal/controller/backend/f5/f5_controller.go:287-296 | a member's host and port are read back exactly for hosts without a colon |

## Left out

- Logging, tracing spans and metrics: they do not influence what is done.
- Creating sessions, credentials, TLS and URLs (`Create`, `Connect` of F5): the provider registry and
  CreateBackend appear as one call that may fail.
- The texts of errors: an error is the fact that there was one.
- Dummy and Netscaler providers: constant answers and thin wrappers around the same string patterns.
- HAProxy.HAProxyProvider.HandleVip: HAProxy's `EditVIP` as written sets mode http, names no default
  backend and sends requests without the frontend's name; it is modelled by its interface comment, one
  request that replaces frontend and bind.
- HAProxy.HAProxyProvider.EditPool: if the servers cannot be read again, the source takes the name of a nil
  pool while it formats the error and crashes (haproxy_controller.go:308-311); the model returns an error.
  Either way nothing is committed.
- HAProxy.HAProxyProvider.GetPoolMembers: a nil server list of an existing backend is assumed away; the
  source then returns a nil pool that `HandlePool` dereferences.
- HAProxy balance algorithm, mode, check interval and maintenance flag: constants of the requests.
- F5 calls other than the string encoding: `EditMonitor` does not change the port and `GetVIP` answers
  with the wanted pool, so F5 is no instance of the faithful provider, and no convergence is claimed.
- Partial effect of a single provider call (F5 `CreatePool` is three requests): a call has its whole
  effect or none.
- IPv4 and IPv6 syntax, port ranges and field lengths enforced by the CRD: all strings and integers.
- Concurrent passes and retry delays: the queue only remembers what is to be done.
- Handlers.BackendController.HandlePool: the generic form passes the pool by value, because providers
  that honour the interface leave it alone; the overwriting provider is modelled by reference in HAProxy.
- Cleanup.CleanupLeavesNothing: an object the device holds but the status does not list is not removed;
  see Teardown.Residue.
