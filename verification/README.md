# Verification of the external IP controller

This project models the in-memory behaviour of the controller that moves the external IP
addresses of Kubernetes services onto nodes, and proves what its parts promise each other.
Five pieces are covered:

- the **work queue** (`WorkQueue`, `QueueRuns`, `Consumers`): the mutable queue, its guarantees
  over whole runs, and the interleavings of producers, consumers and `Close`;
- the **address allocator** (`NetUtils`, `Addresses`, `AddressText`, `Pools`, `PoolCapacity`):
  the in-place increment and the first-free search over a CIDR (section 3.1 of RFC 4632) or
  explicit ranges; IPv4 addresses are 16-byte IPv4-mapped ones (section 2.5.5.2 of RFC 4291), so an
  increment past 255.255.255.255 leaves the network instead of wrapping;
- the **claim scheduler** (`Scheduler`, `Cluster` and the modules built on it): `Scheduler` is
  the object itself, each of its methods proved equal to a function of module `Cluster`, and
  the theorems are about those functions: what processing a service, a request and a claim
  does in plain terms (`Allocation`, `Events`, `Changes`, `ClaimProcessing`), that no claim is
  forgotten (`Scheduling`), what every step keeps (`Soundness`), the claims that exist
  (`ClaimNames`, `ClaimSet`), owners and garbage collection (`Ownership`), exclusive grants
  (`Grants`), the owners of their claims (`Grantees`) and their claims (`PoolClaims`), the runs on
  which a condition fails (`Races`), balanced placement (`Balance`), liveness (`Liveness`) and
  failover (`Failover`, `FailoverWritten`, `FailoverInformed`); `Naming`, `Lookup` and `Strings`
  are about claim names;
- the **naive controller** (`NaiveController`): an incremental reconciler that simulates the
  union of all services' addresses;
- the **claim controller** (`ClaimController`, `Snapshots`): a reconciler driven by snapshots of
  claims and by resyncs.

`EndToEnd` puts the scheduler and the claim controllers of all nodes together.

`dafny verify dfyconfig.toml` checks the whole project.

## How the system is modelled

The Kubernetes API and the informers' stores are maps, and an informer's store is updated just
before its handler runs. Handlers, ticks and the parts of a worker between two queue calls are
atomic steps; a run is any interleaving of them. Time is replaced by explicit ticks and
resyncs. API calls succeed; `strict` says whether the API rejects an update with a stale
version, and the results hold either way unless they name it. Calls on a network interface may fail, finitely
often where a result says so. The orders in which Go iterates over maps, and in which the API
lists claims, are arbitrary. A Go pointer used as a queue item is a number that is never used
twice, so two such items are never equal. What the parsers of the standard library make of a
CIDR or an address text is a parameter of a pool.

A request for an update holds the cached claim object itself. Where the source changes the
object once more after queueing it, both requests show the final value, and so they do here.

A calm run is one on which the change queue drains between service events and before a claim
is processed, and the processed claim is cached as the API has it.

Results that do not hold on all runs name the exact condition, and a lemma shows the run or the
input on which it fails:

- exclusive queue slices: `ExclusiveIffProper`, broken in `RemoveBreaksExclusivity`;
- the wake-up property: `NoSpuriousReturnIffOneConsumer`, broken in
  `SecondConsumerStealsTheItem`;
- distinct claim names: `SameNameIff`, broken in `DashesCollide`;
- announcements: `KeepsAnnouncedIff`, broken in `RetryAfterFailedAnnouncement`;
- the naive controller's retry: `StepKeepsSimulationIff`, broken in `LateRetryLeaksTheAddress`;
- the claim controller between resyncs: `StepKeepsRightIff`, broken in
  `LateRetryLeavesTheAddress` and `ResyncOvertakesUpdate`;
- claims in step with services: `StepFollowsIff`, broken in `ListedClaimIsCollected`;
- recorded owners: `UndrainedUpdatesLoseAnOwner`, broken in `OwnerIsLost`;
- grants in force: `GrantsStayInForceIff`, broken in `LiveGrantIsReleased`;
- claims of pools: `PoolsStayInStep`, broken for a pool with the default mask in
  `DefaultMaskGoesOutOfStep`.

`BackwardRangeRunsToTheEnd` shows that a range whose ends are exchanged offers the rest of its
network, unless the ends are neighbours.

## Model

| member | source | states |
|---|---|---|
| WorkQueue.Queue.constructor | pkg/workqueue/workqueue.go:34-41 | a new queue is empty, open, and processes nothing |
| WorkQueue.Queue.Add | pkg/workqueue/workqueue.go:51-66 | a closed queue and a pending item are left alone; an item being processed becomes pending without being queued; any other item is queued at the back |
| WorkQueue.Queue.Len | pkg/workqueue/workqueue.go:68-70 | the number of queued entries, stale ones included |
| WorkQueue.Queue.Close | pkg/workqueue/workqueue.go:72-77 | only the closed flag changes |
| WorkQueue.Queue.Get | pkg/workqueue/workqueue.go:87-105 | what Get does once it no longer waits: entries that are no longer pending are dropped, and the first pending one moves from pending to processing; else nothing is returned, with the closed flag |
| WorkQueue.DropsOnlyStale | pkg/workqueue/workqueue.go:91-101 | the entries Get drops are a prefix of the slice, and none of them is pending |
| WorkQueue.Queue.Done | pkg/workqueue/workqueue.go:107-117 | the item is no longer in process, and is queued again if it was added meanwhile |
| WorkQueue.Queue.Remove | pkg/workqueue/workqueue.go:120-127 | the item is no longer pending; its slice entry stays |
| WorkQueue.Queue.Process | pkg/workqueue/workqueue.go:137-145 | one Get, the function, an Add if it fails, and one Done; also for the nil item of an empty queue |
| QueueRuns.ExclusiveIffProper | pkg/workqueue/workqueue.go:51-127 | a step keeps the slice exclusive (no item twice, exactly the pending items that are not in process) if and only if it is neither a Remove nor a Done of an item that is queued |
| QueueRuns.ExclusiveRunIffDisciplined | pkg/workqueue/workqueue.go:51-127 | a run keeps it at every point if and only if all its steps are such |
| QueueRuns.HandsOutInReadyOrder | pkg/workqueue/workqueue.go:51-117 | on every run on which neither Remove nor Done meets a queued item: Get never returns an item in process, and items are handed out in the order in which they became ready |
| QueueRuns.HandedOutAfterItsPredecessors | pkg/workqueue/workqueue.go:87-105 | an item at position i of the slice is handed out after exactly i others |
| QueueRuns.NeverLosesWork | pkg/workqueue/workqueue.go:51-127 | on every run, Remove included, every pending item is in the slice or in process |
| QueueRuns.WorkIsConserved | pkg/workqueue/workqueue.go:51-127 | on every run and for every item: accepted adds = hand-outs + effective removes + 1 if it is still pending |
| QueueRuns.AddWhileProcessingIsServed | pkg/workqueue/workqueue.go:57-63 | an Add during the processing of its item leads to another hand-out, unless it is removed or still pending |
| QueueRuns.ShutdownIsBounded | pkg/workqueue/workqueue.go:54-56 | after Close at most as many items are handed out as were pending, whatever the workers do |
| QueueRuns.RemoveBreaksExclusivity | pkg/workqueue/workqueue.go:119-127 | Add, Remove, Add, Get, Add leaves an item that Get hands out while it is in process: a Remove of a queued item is enough |
| QueueRuns.ProcessRetriesAtTheBack | pkg/workqueue/workqueue.go:137-145 | on an open queue Process moves a failing item to the back, still pending, and is done with a succeeding one |
| QueueRuns.NewItemsAreAppended | pkg/workqueue/workqueue.go:51-66 | adding items the queue has never seen appends them all in order |
| QueueRuns.TurnOnQueue | pkg/claimcontroller/controller.go:127-140 | Get, Add on failure, Done: the first item is gone, or at the back of a queue that is still open |
| Consumers.SingleConsumerWakeUp | pkg/workqueue/workqueue.go:83-89 | over all interleavings of producers, one consumer and Close: a consumer that waits without a signal means an empty and open queue, and Get never returns nothing from an open queue |
| Consumers.NoSpuriousReturnIffOneConsumer | pkg/workqueue/workqueue.go:83-89 | the same holds for n consumers if and only if n is at most one |
| Consumers.SecondConsumerStealsTheItem | pkg/workqueue/workqueue.go:83-89 | with two consumers, a run on which Get returns nothing from an open queue |
| NetUtils.IPIncrement | pkg/netutils/netutils.go:147-154 | in place, for any length n: the big-endian value v becomes (v + 1) mod 256^n |
| Addresses.IncrementIsSucc | pkg/extensions/types.go:179-198 | on a 16-byte address this is the successor in 128 bits |
| Addresses.IncrementKeepsPrefix | pkg/netutils/netutils.go:147-154 | an IPv4-mapped address keeps its prefix under increment if and only if it is not 255.255.255.255 |
| NetUtils.Link.EnsureIPAssigned | pkg/netutils/netutils.go:73-99 | success means the address is on the link, other addresses are untouched; an address that is added is announced, one already there is not announced again, and on `lo` none is; a failed announcement leaves the address in place |
| NetUtils.Link.EnsureIPUnassigned | pkg/netutils/netutils.go:102-121 | success means the address is not on the link and counts as announced no more; other addresses are untouched |
| NetUtils.SuccessMeansAnnouncedIff | pkg/netutils/netutils.go:73-99 | off `lo`, a success means that the address was announced when it was added if and only if this call added it or an earlier one announced it |
| NetUtils.KeepsAnnouncedIff | pkg/netutils/netutils.go:73-121 | when all addresses of the link are announced, a call of either kind keeps that if and only if it does not add one whose announcement fails; an address off the link never counts as announced |
| NetUtils.AlwaysAnnouncedIff | pkg/netutils/netutils.go:73-121 | on a whole run of calls all addresses are announced at every point if and only if no call adds one whose announcement fails |
| NetUtils.RetryAfterFailedAnnouncement | pkg/netutils/netutils.go:87-97 | after a failed announcement the address is on the link and not announced; a retry that succeeds leaves it so |
| Addresses.ShowIsInjective | pkg/extensions/types.go:192-194 | two addresses never share the text under which a pool records them |
| AddressText.ShowIsRead | pkg/extensions/types.go:192-194 | an IPv4-mapped address is written as four decimal numbers below 256 between dots, any other as eight hexadecimal numbers below 65536 between colons, none with a leading zero, and read back they are its octets or groups |
| Addresses.V4IsInterval | pkg/extensions/types.go:158-161 | an IPv4 network is an interval of 2^(32-L) addresses in the mapped block |
| Addresses.V6IsIntervalIff | pkg/extensions/types.go:158-161 | an IPv6 network is an interval of 2^(128-L) addresses if and only if that interval is apart from the IPv4-mapped block |
| Pools.IpClaimPool.AvailableIP | pkg/extensions/types.go:157-202 | the answer is the first candidate of the search order that is not allocated, an error if there is none or the CIDR does not parse |
| Pools.IpClaimPool.SearchRanges | pkg/extensions/types.go:184-200 | the loop over the ranges returns what the first range with a free address gives |
| Pools.IpClaimPool.SearchBetween | pkg/extensions/types.go:172-178 | a range starts at its first text and ends one past its last; a start that does not parse gives nothing |
| Pools.IpClaimPool.SearchRange | pkg/extensions/types.go:184-200 | the loop over two byte slices, the second always one past the first, ends, and returns the first free address it passes |
| Pools.AvailableIsExact | pkg/extensions/types.go:157-202 | a free answer is not allocated and all candidates before it are; the error comes exactly when every candidate is allocated |
| Pools.FirstFreeIsFirst | pkg/extensions/types.go:191-196 | what the search finds is not allocated, and everything before it in search order is |
| PoolCapacity.RangeOffers | pkg/extensions/types.go:169-199 | the candidates of a range with first <= last are, in ascending order, its addresses below the last of the network if it starts in the network, and none otherwise; the whole address space as a range also gives none |
| PoolCapacity.BackwardRangeRunsToTheEnd | pkg/extensions/types.go:191-200 | in a network that is an interval, a range written backwards offers the rest of the network from its start, unless its end is just below its start, when it offers nothing |
| PoolCapacity.PoolOffers | pkg/extensions/types.go:157-199 | in any network that is an interval, IPv4 or IPv6: a pool without ranges offers the addresses after the one its CIDR is written with, in order, up to the last; a pool with ranges offers one range after the other, from its start if that is not below the network to its end, or to the last address if the end does not parse or lies before the start; the last address itself is never offered |
| PoolCapacity.GrantsEachCandidateOnce | pkg/extensions/types.go:191-200 | allocate-and-record from empty grants the candidates one by one in order of their first occurrence, each once even where ranges overlap, and then fails |
| PoolCapacity.GrantsEachTextOnce | pkg/extensions/types.go:191-200 | after k rounds of searching and recording exactly the first k different texts are allocated |
| PoolCapacity.V4PoolCapacity | pkg/extensions/types.go:179-200 | a range-less IPv4 pool written with its network address and prefix length L grants exactly max(0, 2^(32-L) - 2) distinct addresses and then fails |
| PoolCapacity.ReleaseMakesAvailable | pkg/scheduler/scheduler.go:448-457 | releasing an address of an exhausted pool makes exactly that address available |
| Strings.JoinOfSplit | pkg/scheduler/scheduler.go:628-632 | joining the parts of a split gives the text back |
| Strings.SplitOfJoin | pkg/scheduler/scheduler.go:628-632 | splitting a join of separator-free parts gives the parts back |
| Naming.CidrRoundTrip | pkg/scheduler/scheduler.go:504 | splitting the CIDR of a claim on the slash recovers address and mask |
| Naming.ClaimNameIsInjective | pkg/scheduler/scheduler.go:628-632 | for texts without dash and slash the claim name determines address and mask |
| Naming.SameNameIff | pkg/scheduler/scheduler.go:628-632 | for any texts and one mask the names are equal if and only if the addresses differ in nothing but dots and dashes |
| Naming.DashesCollide | pkg/scheduler/scheduler.go:628-632 | a text with a dot shares its name with the text that has a dash there, whatever the rest |
| Naming.PrintedAddressIsPlain | pkg/extensions/types.go:192-194 | every address a pool prints meets the restriction |
| Lookup.SameNameIffSameMask | pkg/scheduler/scheduler.go:428-462 | lookup and deletion compute the name a claim was created with if and only if they select the mask it was created with |
| Lookup.ClaimIsFoundIffSameMask | pkg/scheduler/scheduler.go:428-438 | the claim made for an address with some mask is the one lookup returns if and only if lookup selects that mask |
| Lookup.RequestedClaimsAreFound | pkg/scheduler/scheduler.go:180-188 | the claims asked for when a service is processed have the names that lookup computes |
| Lookup.GrantedClaimIsFound | pkg/scheduler/scheduler.go:236-244 | after a grant, lookup and deletion find the granted claim if no earlier pool holds the address |
| NaiveController.ExternalIpController.BoolMapDifference | pkg/controller.go:145-155 | the set difference |
| NaiveController.ExternalIpController.NeglectIPsInUse | pkg/controller.go:157-168 | exactly the addresses that another service lists are dropped, in any order of the store |
| NaiveController.ExternalIpController.EnqueueRequests | pkg/controller.go:198-205 | one fresh request per address, queued in whatever order the map is iterated |
| NaiveController.ExternalIpController.ProcessServiceExternalIPs | pkg/controller.go:170-206 | the requests are additions of newly listed and removals of no longer listed addresses that no other service lists, and none if the address sets are equal |
| NaiveController.ExternalIpController.ProcessItem | pkg/controller.go:121-143 | the link changes as the request says; a failing request is added again before Done |
| NaiveController.DifferenceUpdatesTheUnion | pkg/controller.go:170-206 | the incremental differences turn the union over the old store into the union over the new one |
| NaiveController.DifferencesAreExact | pkg/controller.go:189-196 | the additions are exactly the addresses that became listed, the removals exactly those no service lists any more |
| NaiveController.EventRequests | pkg/controller.go:170-206 | so an event queues, behind what is pending, one assignment for each address that became listed and one removal for each that no service lists any more; a slash splits the text of a request into the address and the mask |
| NaiveController.CidrIsClaimText | pkg/controller.go:198-205 | the text put on the interface is the one that a claim of the address carries |
| NaiveController.HandlerKeepsSimulation | pkg/controller.go:170-206 | an event keeps: the pending requests lead from the interface to the union |
| NaiveController.RetryAtTheBack | pkg/controller.go:137-139 | a retry at the back is harmless if and only if no later request for the same address asks the opposite |
| NaiveController.FinishKeepsSimulationIff | pkg/controller.go:121-143 | the end of an item keeps the simulation if and only if the item did not fail or no later request contradicts it |
| NaiveController.StepKeepsSimulationIff | pkg/controller.go:83-206 | every step of handlers and worker keeps the simulation if and only if it is not the end of a failed item that a queued one contradicts |
| NaiveController.InterfaceFollowsTheStore | pkg/controller.go:83-206 | on every run from an empty interface, whatever the iteration orders and faults, the pending requests (a request whose call failed counts as the first until Done) lead to the union of all services' addresses at every point if and only if no failed item has gone behind one that contradicts it |
| NaiveController.DrainedInterfaceIsTheUnion | pkg/controller.go:83-206 | where that holds and nothing is pending the interface is the union |
| NaiveController.DrainedInterfaceTexts | pkg/controller.go:83-206 | then a text is on the interface if and only if a slash splits it into an address that some service lists and the mask |
| NaiveController.LateRetryLeaksTheAddress | pkg/controller.go:121-143 | a run from an empty interface: the service is deleted while its assignment fails, the retry comes behind the removal, and with everything done and nothing stored the address is on the interface |
| NaiveController.ItemIsAStep | pkg/controller.go:121-143 | a call of ProcessItem is one step of the system the runs are made of |
| Scheduler.IpClaimScheduler.constructor | pkg/scheduler/scheduler.go:55-73 | nothing is queued and no node is known to live |
| Scheduler.IpClaimScheduler.AddClaimChangeRequest | pkg/scheduler/scheduler.go:402-408 | every request is queued as a new object |
| Scheduler.IpClaimScheduler.PoolByAllocatedIP | pkg/scheduler/scheduler.go:202-209 | the first pool that has the address allocated, if any |
| Scheduler.IpClaimScheduler.GetIPClaimByIP | pkg/scheduler/scheduler.go:428-438 | the API's claim under the name computed from the address and the mask of the first pool that has it, or the default mask |
| Scheduler.IpClaimScheduler.FindFreeIP | pkg/scheduler/scheduler.go:217-234 | the first pool with a free address, and that address |
| Scheduler.IpClaimScheduler.UpdatePoolAllocation | pkg/scheduler/scheduler.go:616-626 | the one pool records the address under the claim name |
| Scheduler.IpClaimScheduler.AutoAllocateExternalIP | pkg/scheduler/scheduler.go:211-268 | the claim with the pool's mask and label is asked for, the pool records it, and the service lists the address; nothing happens if all pools are exhausted |
| Scheduler.IpClaimScheduler.ProcessExternalIPs | pkg/scheduler/scheduler.go:170-200 | claims are asked for all addresses no pool has, and an address is granted only to a service that wants one and lists none of a pool |
| Scheduler.IpClaimScheduler.DeleteIPClaimAndAllocation | pkg/scheduler/scheduler.go:448-462 | a deletion under the name with the pool's mask, and the pool forgets the address; with the default mask if no pool has it |
| Scheduler.IpClaimScheduler.CurrentRefs | pkg/scheduler/scheduler.go:411-417 | the addresses that any stored service lists |
| Scheduler.IpClaimScheduler.ProcessOldService | pkg/scheduler/scheduler.go:410-426 | release of exactly the old addresses that no stored service lists, in order |
| Scheduler.IpClaimScheduler.ServiceAdded | pkg/scheduler/scheduler.go:145-149 | the handler of an added service |
| Scheduler.IpClaimScheduler.ServiceUpdated | pkg/scheduler/scheduler.go:150-156 | the handler of an updated service: first the new object, then the old |
| Scheduler.IpClaimScheduler.ServiceDeleted | pkg/scheduler/scheduler.go:157-160 | the handler of a deleted service |
| Scheduler.IpClaimScheduler.TakeChange | pkg/scheduler/scheduler.go:341-347 | the change worker takes the first request |
| Scheduler.IpClaimScheduler.UpdateClaim | pkg/scheduler/scheduler.go:381-388 | the API stores a new version unless it checks versions and this one is stale, or the claim is gone |
| Scheduler.IpClaimScheduler.IsOwner | pkg/scheduler/scheduler.go:364-373 | whether the owner is recorded already |
| Scheduler.IpClaimScheduler.HandleChange | pkg/scheduler/scheduler.go:347-399 | create, or queue an update with one more owner if the claim exists without it; update; delete; then Done |
| Scheduler.IpClaimScheduler.FindOwnersAlive | pkg/scheduler/scheduler.go:465-495 | the owners that are cached or known to the API, or whose key has no namespace, in order |
| Scheduler.IpClaimScheduler.FindAliveNodes | pkg/scheduler/scheduler.go:306-316 | the listed nodes that are live, in order |
| Scheduler.IpClaimScheduler.CountClaims | pkg/scheduler/node_filter.go:24-36 | per node, the number of cached claims on it, in any order of the store |
| Scheduler.IpClaimScheduler.GetFairNode | pkg/scheduler/node_filter.go:23-47 | the first node with the least number of cached claims |
| Scheduler.IpClaimScheduler.GetNode | pkg/scheduler/node_filter.go:23-51 | the node the configured filter chooses |
| Scheduler.IpClaimScheduler.PlaceClaim | pkg/scheduler/scheduler.go:512-532 | a claim on a live node stays, any other gets label and name of the chosen live node, and it is an error if there is none |
| Scheduler.IpClaimScheduler.ProcessIpClaim | pkg/scheduler/scheduler.go:497-534 | release without living owners; else dead owners are dropped and the claim is placed, with the updates that asks for |
| Scheduler.IpClaimScheduler.TakeKey | pkg/scheduler/scheduler.go:321-325 | the worker takes the first key |
| Scheduler.IpClaimScheduler.ProcessKey | pkg/scheduler/scheduler.go:326-333 | a key whose claim is cached is processed, and added again on an error |
| Scheduler.IpClaimScheduler.FinishKey | pkg/scheduler/scheduler.go:334-335 | the worker is done with the key |
| Scheduler.IpClaimScheduler.SeeNode | pkg/scheduler/scheduler.go:547-585 | an advanced revision is remembered and makes the node live; else it is dead and the claims labelled with it are queued |
| Scheduler.IpClaimScheduler.MonitorTick | pkg/scheduler/scheduler.go:541-587 | one tick sees all listed nodes in order |
| Scheduler.IpClaimScheduler.SyncClaim | pkg/scheduler/scheduler.go:270-304 | the cache takes over the API's claim and its key is queued, or forgets a deleted one |
| Scheduler.IpClaimScheduler.ResyncClaim | pkg/scheduler/scheduler.go:270-296 | the periodic resync queues the key of a cached claim and does not refresh it |
| Scheduler.IpClaimScheduler.WorkerAfterClose | pkg/scheduler/scheduler.go:318-337 | after Close the worker quits after exactly as many turns as keys were queued, even if every one fails and is added again |
| Scheduler.ClosedTurn | pkg/scheduler/scheduler.go:318-337 | one such turn is done with the first key although it may fail |
| Soundness.StepIsSound | pkg/scheduler/scheduler.go:145-587 | every step of handlers, workers, monitor and informer, its resync included, keeps: no owner twice, a placed claim is labelled with its node, name and CIDR belong to one address and an allowed mask, in the API, the cache and all pending requests |
| Soundness.EveryRunIsSound | pkg/scheduler/scheduler.go:145-587 | on every run at every point no claim has an owner twice and each placed claim carries its node as label |
| Soundness.StartIsSound | pkg/scheduler/scheduler.go:55-73 | a scheduler without claims is in such a state |
| ClaimNames.HandlingPops | pkg/scheduler/scheduler.go:339-399 | carrying out the first pending request leaves the others in order, followed by the update it may ask for |
| ClaimNames.HandlingKeepsWill | pkg/scheduler/scheduler.go:352-379 | taking and carrying out requests changes the final existence of no claim, although an existing claim queues another update |
| ClaimNames.CreatingWill | pkg/scheduler/scheduler.go:180-188 | processing a service decides the existence of exactly the claims of its listed addresses |
| ClaimNames.DroppingWill | pkg/scheduler/scheduler.go:410-426 | the handling of an old service decides the deletion of exactly the addresses that nobody lists |
| ClaimSet.ServiceEventFollows | pkg/scheduler/scheduler.go:145-160 | an event keeps, for an address outside all pools: its claim is left in the end exactly when some service lists it |
| ClaimSet.KeyProcessedFollowsIff | pkg/scheduler/scheduler.go:497-505 | processing a key keeps that for all outside addresses if and only if it does not collect the claim of one that some service lists |
| ClaimSet.StepFollowsIff | pkg/scheduler/scheduler.go:145-209 | every step keeps it under exactly that condition; no other step can break it |
| ClaimSet.ClaimsFollowServices | pkg/scheduler/scheduler.go:145-209 | so claims and services agree at every point of a run, whatever the interleaving, if and only if the run collects no claim of an outside address that is listed |
| ClaimSet.DrainedClaimsAreTheListedAddresses | pkg/scheduler/scheduler.go:339-399 | when nothing is pending, the claim of an outside address exists exactly if some service lists the address |
| ClaimSet.CollectedIsUnlisted | pkg/scheduler/scheduler.go:497-505 | a claim without living owners that records every service listing its address is of an address nobody lists |
| Ownership.ServiceEventTracks | pkg/scheduler/scheduler.go:145-200 | after an event on a drained queue every listing service is a recorded owner or about to become one |
| Ownership.StepTracks | pkg/scheduler/scheduler.go:347-376 | every step of a calm run keeps that |
| Ownership.OwnersIncludeEveryLister | pkg/scheduler/scheduler.go:352-376 | on runs where the queue drains between events and cache equals API: whenever nothing is pending, the claim of an outside address records every service that lists it |
| Ownership.CollectionIsSafe | pkg/scheduler/scheduler.go:497-505 | on such runs the deletion of a claim without living owners never hits an address in use |
| Ownership.CalmRunsFollow | pkg/scheduler/scheduler.go:145-209 | on such runs from an untouched world claims and services agree at every point, with no condition on owners |
| Ownership.UntouchedAgrees | pkg/scheduler/scheduler.go:55-73 | the runs may start from a world without services and claims |
| Races.UndrainedUpdatesLoseAnOwner | pkg/scheduler/scheduler.go:352-388 | any number of new services list the address of an existing claim before the worker runs: once nothing is pending all of them are recorded as owners if and only if at most one was not an owner before, with and without version checks |
| Races.OwnerIsLost | pkg/scheduler/scheduler.go:352-388 | from the start, a run on which a listing service is not recorded although nothing is pending |
| Races.ListedClaimIsCollected | pkg/scheduler/scheduler.go:497-505 | from the start, a run on which a lagging cache makes the worker collect the claim of an outside address that is listed |
| Grants.GrantIsNew | pkg/scheduler/scheduler.go:211-268 | with disjoint pools a granted address is held by no grant in force |
| Grants.KeyProcessedGrants | pkg/scheduler/scheduler.go:497-505 | processing a key keeps every grant in force if, and with disjoint pools only if, it collects no claim of a granted address |
| Grants.StepKeepsGrants | pkg/scheduler/scheduler.go:166-268 | so does every step; a grant in force is listed by its service and allocated in its pool under its claim's name |
| Grants.GrantsStayInForce | pkg/scheduler/scheduler.go:166-268 | at every point of every run that collects no claim of a granted address, every grant whose service still lists it is in force |
| Grants.GrantsStayInForceIff | pkg/scheduler/scheduler.go:166-268 | with disjoint pools the grants stay in force on a run if and only if it collects no such claim |
| Grants.NeverGrantedTwice | pkg/scheduler/scheduler.go:211-268 | on such runs with disjoint pools no event grants an address that is still held |
| Grants.HolderIsGrantedNothing | pkg/scheduler/scheduler.go:166-200 | at every point of such a run a service that holds a grant and lists it is granted nothing, and processing it again changes no pool |
| Grants.ReprocessingGrantsNothing | pkg/scheduler/scheduler.go:166-200 | in particular right after the grant, when the updated service is processed |
| Races.LiveGrantIsReleased | pkg/scheduler/scheduler.go:448-457 | a calm run from the start on which the worker is about to collect an orphaned default-mask claim of an address that a pool has granted to a service that is still there: the condition fails |
| Races.AnyPoolCanStart | pkg/scheduler/scheduler.go:217-234 | every pool that offers an address admits that start |
| Grantees.GranteeIsRecorded | pkg/scheduler/scheduler.go:236-268 | on calm runs with disjoint pools, whenever nothing is pending, the claim made for a grant in force exists and records the service it was granted to |
| Grantees.OnlyOtherClaimsEndGrants | pkg/scheduler/scheduler.go:497-505 | so on such runs the claim made for a grant is never the one that is collected |
| PoolClaims.StepKeepsPoolsInStep | pkg/scheduler/scheduler.go:145-587 | with disjoint pools, none with the default mask, every step keeps, garbage collection included: a pool's claim of an address is left in the end exactly if the address is allocated |
| PoolClaims.PoolsStayInStep | pkg/scheduler/scheduler.go:145-587 | and so it holds at every point of every run |
| PoolClaims.NothingLeaks | pkg/scheduler/scheduler.go:410-457 | with disjoint pools, at every point of every run each allocated address is listed by a stored service |
| PoolClaims.DrainedPoolClaims | pkg/scheduler/scheduler.go:448-457 | so when nothing is pending the claims of pools are those of their allocated addresses, and each of these is listed |
| PoolClaims.UntouchedPools | pkg/scheduler/scheduler.go:55-73 | the runs may start from a world without services, claims and allocations |
| Races.DefaultMaskGoesOutOfStep | pkg/scheduler/scheduler.go:180-188 | for any pool that has the default mask and offers an address, a run from the start on which the claim exists and the allocation does not |
| Balance.GreedyIsOptimal | pkg/scheduler/node_filter.go:23-47 | k placements on the first least loaded of n nodes end with highest load exactly max(initial highest, ceil((total + k) / n)) and spread at most max(initial spread, 1) |
| Balance.NoPlacementBeatsTheBound | pkg/scheduler/node_filter.go:23-47 | no other way to place k claims ends with a lower highest load |
| Balance.PlacingOneClaim | pkg/scheduler/scheduler.go:512-533 | processing an unplaced claim with the fair filter is one such placement, seen by the counter at once |
| Balance.FairPlacementIsGreedy | pkg/scheduler/scheduler.go:512-533 | processing k claims that are on no live node one after another is k such placements |
| Balance.FairPlacementIsOptimal | pkg/scheduler/scheduler.go:512-533 | and so ends as level as any placement can |
| Arithmetic.CeilIsQuotient | pkg/scheduler/node_filter.go:37-45 | the bound of the balance results is the rounded-up quotient |
| Allocation.ProcessingGrantsIff | pkg/scheduler/scheduler.go:170-268 | processing a service changes a pool if and only if it is a load balancer or its annotation has the value auto, no pool has one of its addresses, and some pool that parses offers an address that is not allocated; then the first such address of the first such pool is recorded under the name of its claim and listed by the service, and else neither pools nor services change |
| Allocation.ListedAreAskedFor | pkg/scheduler/scheduler.go:180-188 | one claim is asked for each listed address that no pool has, in order: with that address and the default mask, for this service, on no node |
| Allocation.GrantAsksFor | pkg/scheduler/scheduler.go:236-241 | for a granted address one claim is asked for, with the mask of its pool and labelled with the name of the pool; without a grant none |
| Allocation.ProcessingAsksFor | pkg/scheduler/scheduler.go:170-244 | processing a service appends these requests to the pending ones, the claim of the grant last |
| Events.EventGrants | pkg/scheduler/scheduler.go:150-156 | after its event a service is stored as the new object, with the address it is granted, which is chosen before the old addresses are released; other services stay as they are |
| Events.DeletionGrantsNothing | pkg/scheduler/scheduler.go:157-160 | a deletion removes the service and changes no other |
| Events.EventReleases | pkg/scheduler/scheduler.go:410-457 | after its creations an event asks for deletions: one for each address of the old object that no stored service lists any more, in order, and the first pool that has the address gives it up |
| Changes.RequestIsCarriedOut | pkg/scheduler/scheduler.go:339-400 | a creation stores a new claim as version 1, or asks for an update with one more owner; an update replaces a claim held in its version, or in any version if they are not checked, by the next version; a deletion removes it; other claims and the rest of the queue stay as they are |
| Changes.VersionsRise | pkg/scheduler/scheduler.go:381-388 | on every run the version of a claim never falls until it is deleted |
| Changes.StaleUpdatesAreRejected | pkg/scheduler/scheduler.go:381-388 | so no update is lost: with versions checked, one made from an older version than the API once held changes nothing unless the claim was deleted meanwhile |
| ClaimProcessing.KeepsThoseThatStand | pkg/scheduler/scheduler.go:465-495 | the owners that are kept are, in order, exactly those that the cache or the API knows or whose key does not split in two |
| ClaimProcessing.ChosenIsChoice | pkg/scheduler/node_filter.go:23-51 | the node that is chosen is the first live listed one, or the first of those with the fewest cached claims |
| ClaimProcessing.ReleaseFrees | pkg/scheduler/scheduler.go:448-462 | a release deletes the claim under the mask of the first pool that has the address, which alone gives it up; under the default mask, with all pools unchanged, if no pool has it |
| ClaimProcessing.ProcessingKeepsIff | pkg/scheduler/scheduler.go:497-534 | processing a cached claim asks for its deletion and releases its address if and only if no recorded owner is known to cache or API (or has a key that does not split in two); else exactly these owners stay, in order, the claim stays on a live node, goes to the chosen node with its label, or stays unplaced if no listed node is live, and one update is asked for if an owner was dropped and one if it was placed |
| ClaimProcessing.MissingKeyIsSkipped | pkg/scheduler/scheduler.go:325-327 | nothing happens for a key that is not cached |
| ClaimProcessing.KnownOwnerSaves | pkg/scheduler/scheduler.go:465-505 | on every run, whatever the cache of services lags behind: processing a claim with a recorded owner known to cache or API leaves that owner recorded, asks for nothing but updates that record it, and releases no address |
| Scheduling.DeliveryQueues | pkg/scheduler/scheduler.go:276-303 | delivering a claim that the API holds, cached before or not, leaves the object of the API in the cache and its key pending, at the back unless it was pending or is in process; a claim that is gone is forgotten and nothing queued |
| Scheduling.ResyncQueues | pkg/scheduler/scheduler.go:270-303 | a resync queues the key of a cached claim and changes nothing else |
| Scheduling.TickQueuesExactly | pkg/scheduler/scheduler.go:564-585 | a tick makes pending exactly the claims whose label names a node it finds dead, besides what was pending |
| Scheduling.FailedKeyIsRetried | pkg/scheduler/scheduler.go:318-336 | once a key is processed and done with it is pending again, at the back, if and only if its claim has an owner but sits on no live node and no listed node is live, or the key was added meanwhile |
| Scheduling.DueUntilCleared | pkg/scheduler/scheduler.go:318-336 | on every run, with live nodes or without, a key that is due stays due until it is processed and its claim is then on a live node, given up, or not cached |
| Scheduling.StepAttends | pkg/scheduler/scheduler.go:270-596 | every step that neither changes the claim in the API nor gives it up keeps, and a delivery establishes: the cached claim has the version of the API, its node up to an update about to be accepted, and is on a node that counts as live, due, or about to be updated |
| Scheduling.EveryClaimIsAttended | pkg/scheduler/scheduler.go:270-596 | and so it holds at every point of every run from an empty cache for each claim delivered since it was last changed or given up |
| Scheduling.SettledOrDue | pkg/scheduler/scheduler.go:270-596 | with nothing pending, such a claim is on a live node or due |
| Liveness.TickDecides | pkg/scheduler/scheduler.go:547-563 | a tick raises the remembered revision of a listed node to the maximum, makes it live exactly if its revision advanced, and leaves the others alone |
| Liveness.LivenessIsAFoldOfHistory | pkg/scheduler/scheduler.go:536-596 | at every point of every run the remembered revision is the maximum of 0 and all revisions shown, and a node is live exactly when the latest one exceeds 0 and all earlier ones |
| Liveness.BeatsCount | pkg/claimcontroller/controller.go:161-184 | n heartbeats register an unknown node with revision 0 and raise its revision by one each |
| Liveness.NodeIsLiveIffItBeat | pkg/claimcontroller/controller.go:155-187 | a node is live exactly while it beats between ticks; at its first tick it must have beaten twice, as it registers with revision 0 |
| Failover.KeysStayInOrder | pkg/scheduler/scheduler.go:318-337 | on every run no claim key is queued twice or taken while the worker is on it |
| Failover.TickQueues | pkg/scheduler/scheduler.go:564-585 | a tick makes every claim labelled with a dead node pending, and what was pending stays so |
| Failover.FailoverIsComplete | pkg/scheduler/scheduler.go:497-596 | if cache and API agree, after a tick and a drain of the keys with a live node listed, during which the informer is silent: no cached claim with a living owner is left on a node found dead and no claim on a live node has moved, whichever key was in process at the tick |
| Failover.DrainIsBounded | pkg/scheduler/scheduler.go:318-337 | every step of the key worker brings the drain one step nearer, and the change worker never delays it |
| Failover.DrainEnds | pkg/scheduler/scheduler.go:318-337 | the key worker can go on exactly until the drain is complete |
| FailoverWritten.FailoverIsWritten | pkg/scheduler/scheduler.go:381-388 | once the change queue is drained too, with the informer silent, the API's claims are on the nodes of the cache, with and without version checks |
| FailoverInformed.FailoverSurvivesTheInformer | pkg/scheduler/scheduler.go:270-347 | with nothing pending at the tick and the informer delivering and resyncing claims at any time: after the drain every claim with living owners that the API still holds is on a live node if it sat on a dead one or its key was due, and where it was if it sat on a live one, in the API as in the cache, with and without version checks |
| ClaimController.NodeController.constructor | pkg/claimcontroller/controller.go:53-65 | no claims, an empty queue |
| ClaimController.NodeController.ClaimStored | pkg/claimcontroller/controller.go:100-116 | additions and updates queue the new object |
| ClaimController.NodeController.ClaimDeleted | pkg/claimcontroller/controller.go:117-122 | deletions queue the deleted object |
| ClaimController.NodeController.Resync | pkg/claimcontroller/controller.go:95-125 | every stored claim is queued once, in some order |
| ClaimController.NodeController.ProcessClaim | pkg/claimcontroller/controller.go:142-153 | the address is ensured present if the claim is stored and the snapshot names this node, absent otherwise |
| ClaimController.NodeController.Turn | pkg/claimcontroller/controller.go:127-140 | one turn of the loop: take, process, add again on an error, done |
| ClaimController.NodeController.Worker | pkg/claimcontroller/controller.go:127-140 | with finitely many faults the loop ends, by quitting exactly if the queue is closed |
| ClaimController.WorkedAdvances | pkg/claimcontroller/controller.go:127-140 | a turn is done with the first item, or moves it to the back of an open queue at the cost of a fault |
| ClaimController.ClosedQueueShrinks | pkg/claimcontroller/controller.go:127-140 | once the queue is closed every turn makes it shorter, failures included |
| ClaimController.ResyncConverges | pkg/claimcontroller/controller.go:95-153 | from any interface, with any finitely many faults, one resync of claims with distinct CIDRs drains to an interface that holds a claim's CIDR exactly when the claim names this node, and all other addresses are as before |
| ClaimController.EachAddressOnItsNode | pkg/claimcontroller/controller.go:142-153 | with distinct names every claimed address ends on the node its claim names and on no other |
| Snapshots.TurnIsThreeSteps | pkg/claimcontroller/controller.go:127-140 | a turn of the controller is a take, a call and a finish of the machine between whose steps events may come |
| Snapshots.StepKeepsRightIff | pkg/claimcontroller/controller.go:100-153 | the pending snapshots lead to exactly the addresses of the claims that name this node; a step keeps that if and only if it neither retries a snapshot behind a contrary one nor stores an object that overtakes a contrary snapshot waiting to be queued again; a deletion may bring a new object |
| Snapshots.InterfaceFollowsTheClaims | pkg/claimcontroller/controller.go:95-153 | on every run of claim events, resyncs, calls and faults from an empty interface this holds at every point if and only if all steps so far are harmless |
| Snapshots.DrainedInterfaceIsRight | pkg/claimcontroller/controller.go:142-153 | when it holds and nothing is pending the interface has exactly those addresses |
| Snapshots.LateRetryLeavesTheAddress | pkg/claimcontroller/controller.go:127-140 | a run from the start: the retry of an old snapshot puts back the address that the newer one took away, and nothing is left to correct it before the next resync |
| Snapshots.ResyncOvertakesUpdate | pkg/claimcontroller/controller.go:95-125 | a run without any fault that reaches a harmful step: a resync queues a snapshot that is in process behind the update that follows |
| EndToEnd.ClaimedAddress | pkg/claimcontroller/controller.go:142-153 | a node whose controller has caught up with the API and has nothing left to do holds the address of a claim if and only if the claim names the node |
| EndToEnd.AddressIsServed | pkg/scheduler/scheduler.go:145-596 | on a calm run from the start, with listings that are complete and name each node once, that ends, after a tick by which the informer has delivered the claim, with both queues drained: an outside address that a service lists has a claim, which names a live node, and of all nodes at rest exactly that one holds the address; an address nobody lists is on none |
| EndToEnd.PoolAddressIsServed | pkg/scheduler/scheduler.go:145-587 | the address of a pool is, when nothing is pending, on exactly the node its claim names and listed if it is allocated, and on none if it is not |
| ClaimController.NodeController.Heartbeat | pkg/claimcontroller/controller.go:161-184 | a heartbeat registers the node or raises its revision by one, and touches no other node |

## Left out

- The REST client, JSON decoding, resource registration, command line, leader election and Helm charts: they carry no state of the model; one active scheduler is assumed, as the operating-modes document asks for.
- netlink, pcap and ARP: only their effect on the set of addresses, and their failures, are kept.
- Failing API calls of the scheduler: the claim Get after AlreadyExists, pool and service updates and listings always succeed, so the retry at pkg/scheduler/scheduler.go:359 is not part of this model.
- Preemption inside a handler or between two queue calls of a worker, and data races on `liveIpNodes` (`findAliveNodes` unlocks at once).
- Real time: monitor, heartbeat and resync periods are explicit steps.
- Services' load-balancer status, events lost by an informer, and its tombstone objects.
- A cached claim that is changed in place while an earlier request for it is still queued: a request keeps the value it had when its processing step ended.
- Empty ranges, and allocations under a CIDR without a slash, which make the source fail on an index, and an IPv6 network that is the whole address space.
- 64-bit overflow of revisions and versions.
- Claims in namespaces: a claim's key is its name.
- Go's map[string]bool used as a set is a set.
- AddressText.ShowIsRead: as in Addresses.ShowIsInjective, an IPv6 address is written in full.
- Addresses.ShowIsInjective: prints an IPv6 address as eight groups, not in Go's compressed form, which is injective and free of dashes as well.
- Scheduler.IpClaimScheduler.HandleChange: does not model a failing Get after AlreadyExists, because calls of the API succeed here; the source then adds the request again.
- Failover.FailoverIsComplete: the informer is silent during the drain; FailoverInformed.FailoverSurvivesTheInformer covers drains with it.
- FailoverWritten.FailoverIsWritten: the informer is silent here too; with it a claim is on a live node in API and cache, but the two may differ on which.
- PoolClaims.NothingLeaks: pools that offer a common address are not covered; the release takes the address from the first pool only.
- Grants.StepKeepsGrants: without disjoint pools only the one direction holds, because an address that two pools have allocated is released in the first of them.
- Pools.IpClaimPool.AvailableIP: parses each range just before it searches it; the source parses all ranges first, which makes no difference to the result.
- ClaimController.NodeController.Worker: ends when it would have to wait for work, since no other step can wake it inside one call.
- Scheduler.IpClaimScheduler.WorkerAfterClose: covers the loop from Close on; before Close its turns are the steps of the runs.
- WorkQueue.Queue.Get: does not wait; the waiting is in module Consumers.
