# Verification of the migration framework

This project models the migration daemon's own logic in Dafny and proves what it promises, and
where it does not keep a promise, exactly when. libvirt, MQTT and SSH appear as steps on an abstract
cluster that may fail; everything the daemon decides itself follows the source branch by branch.

| files | what they model |
|---|---|
| `Evacuation.dfy`, `WaterFilling.dfy` | the evacuation scheduler: runs of calls, closed forms, optimality |
| `DestinationQueue.dfy` | the shared list of destinations, changed in place, proved against those specifications |
| `EvacuationThreads.dfy` | the calls of one node evacuation from many threads, with the emptiness check outside the lock |
| `EvacuationMessages.dfy` | any sequence of node evacuations on the one shared list, initialised without the lock |
| `Guards.dfy` | the scope guards and C++ stack unwinding |
| `Migration.dfy` | `migrate` on a stack frame with its four guards, every call possibly failing |
| `Swap.dfy` | swap migration as a state machine: eight guards, the snapshot path and the parallel path |
| `SwapThreads.dfy` | the parallel path under all interleavings |
| `SwapOutcomes.dfy` | the exception that leaves a swap, the run state it leaves, and runs that reach each of its ends |
| `SwapPscom.dfy` | suspended processes and subscriptions at every end of a swap |
| `PciNames.dfy`, `PciDevices.dfy` | hexadecimal names and addresses, the device cache, attach, detach, reattach |
| `DeviceGuards.dfy` | reattaching one device after the other is one step of the guard model |
| `CpuMaps.dfy` | the byte maps used for pinning |
| `ThreadCounter.dfy`, `TaskExecution.dfy`, `TaskLoop.dfy` | the thread counter, subtasks with their futures, the main loop |
| `Sequences.dfy` | finite sums and permutations |

`dafny verify dfyconfig.toml` checks everything.

## What the proofs found

Promises that hold without exception: compact and scatter hand out exactly their closed forms; no
interleaving of the threads of a node evacuation changes the order of destinations; a migration
ends on exactly one host whatever fails; no machine is ever active twice during a swap; hints never
decide whether a device can be attached; every deferred and asynchronous subtask appears once, in
order, in the reply.

Promises with an exact condition, each proved in both directions:

* `auto` leaves the best possible distribution after k >= 1 calls if and only if k is larger than
  the capacity listed above the front entry (`WaterFillingOptimalIff`). The list is not sorted
  before the first call, so with room 0 and 5 the first domain goes to the full host.
* With overbooking off, `auto` keeps hosts within their capacity if and only if no more calls are
  made than there is capacity in total (`AutoOverbooksIff`). The documentation of the messages
  describes the flag as allowing overbooking; the code never drops a host in this mode. The model
  follows the code.
* The emptiness check before the lock lets a thread of a node evacuation, while no other one is
  initialised, take from an empty list if and only if hosts are dropped, the list is not empty at
  the start and there are more threads than total capacity (`UnlockedCheckBreaksIff`). The tasks of
  a node evacuation do run concurrently: their flag for concurrent execution is never copied
  (`GetEvacuateTasks`).
* The list is shared by all node evacuations and initialised without the lock. A sequence of
  requests can end with a thread taking from an empty list if and only if one of them that names a
  destination drops hosts itself, is detached and followed by another request, or comes after a
  detached request and is followed by another one, filters its list, or meets threads that drop
  hosts (`RequestsBreakIff`). One with all settings at their defaults and any other after it are
  enough (`TwoEvacuationsBreak`).
* `migrate` leaves a moved machine paused if and only if it has a cpu map and repinning or resuming
  fails: an exception from repinning skips the resume (`Migrate`).
* After a migration the shared memory device is the one that was there if and only if the guard was
  never constructed, there was none, or it can be attached, its name and alias agree and its model is
  `ivshmem-plain`: the guard reads the alias as the name (`SharedMemoryReturnsIff`,
  `AliasedDeviceIsRenamed`). The same holds at every end of a swap (`SwapRestores`).
* The snapshot swap loses a machine if and only if redefining the snapshot failed, its null result
  went unnoticed, and the record on the source was then deleted (`SwapDuplicatesNothing`). From every
  start there is such a run, and leaving the scope does not help (`MachineCanBeLost`).
* After a swap every running machine that its guards point to runs again with its PCI devices. They
  point elsewhere if and only if deleting the last snapshot throws: the guards of the reverted machine
  then still point to the host it left (`SwapRestores`, `MachineCanBeLeftBare`).
* An exception leaves a swap if and only if one of its own statements threw or one of the machines
  could not be restored. What the threads of the parallel path threw has no part in it, as the
  futures are never read (`SwapThrowsIff`): both may fail without anybody noticing
  (`FailuresGoUnnoticed`).
* A wake-up of the thread counter can be lost if and only if two or more threads wait
  (`WakeUpLostIff`); the daemon has one.
* When a waiter goes back, all threads spawned so far have ended if and only if all of them had
  constructed their counter by then (`AllEndedIffAllConstructed`). As they do that themselves, a
  waiter may miss one (`WaitMissesSpawnedThread`).
* If sending works, a message that was handled gets its one reply if and only if no thread is left
  for it that never began (`Serve`). A quit right after it is enough to leave it unanswered
  (`ServeUnanswered`).
* In a swap the local machine is repinned if and only if no exception is in flight, its own repin call
  works, and the guard of the remote machine, which is destroyed first, does not throw
  (`SwapRunState`, `LocalCanMissRepin`).
* The loop stops on a quit message if and only if the reply to it could be sent (`Handle`).

## Model

| member | source | states |
|---|---|---|
| WaterFilling.WaterFillingOptimalIff | src/libvirt_hypervisor.cpp:848-880 | for every list, every tie order of the sort and every k >= 1: k auto calls leave an outcome no placement of k domains beats at any level, if and only if k exceeds the capacity above the front entry |
| WaterFilling.SortedListIsServedOptimally | src/libvirt_hypervisor.cpp:874-878 | if the front host has most capacity, as after any first call, any number of auto calls is optimal |
| WaterFilling.AutoBalances | src/libvirt_hypervisor.cpp:848-880 | whenever there are more calls than capacity above the front, or the front is a maximum: the run leaves the least possible maximum and the greatest possible minimum of remaining capacity among all placements |
| WaterFilling.OptimalBalances | src/libvirt_hypervisor.cpp:874-878 | an optimal outcome has the least possible maximum and the greatest possible minimum of remaining capacity among all placements |
| WaterFilling.RunIsPlacement | src/libvirt_hypervisor.cpp:848-880 | what k auto calls leave is what some placement of exactly k domains leaves, reordered, so the optimum is attained and not only bounded |
| WaterFilling.UnsortedListIsServedBadly | src/libvirt_hypervisor.cpp:784-801 | a concrete list as init leaves it, and a legal run on it, whose first call is not optimal |
| WaterFilling.AutoOverbooksIff | src/libvirt_hypervisor.cpp:848-880 | with overbooking off, auto keeps every host within its capacity exactly as long as the number of calls does not exceed the total |
| Evacuation.ScatterIsRoundTable | src/libvirt_hypervisor.cpp:868-873 | scatter without overbooking hands out, for rounds r = 0, 1, 2, ..., the hosts with capacity above r in list order, and nothing after the total number of units is used up |
| Evacuation.ScatterIsFair | src/libvirt_hypervisor.cpp:868-873 | after any number of scatter calls, positions still listed differ by at most one in the domains received |
| Evacuation.ScatterOverbookingIsRoundRobin | src/libvirt_hypervisor.cpp:868-873 | scatter with overbooking is round-robin over the list for ever |
| Evacuation.CompactFillsInOrder | src/libvirt_hypervisor.cpp:860-867 | compact without overbooking hands out a prefix of each host repeated as often as it has capacity, in list order |
| Evacuation.CompactOverbookingClosedForm | src/libvirt_hypervisor.cpp:860-867 | compact with overbooking gives max(1, capacity) domains in a row to each host in a first pass and is round-robin over the original order from then on |
| Evacuation.UnknownServesFront | src/libvirt_hypervisor.cpp:848-880 | with any other mode name every call serves the host listed first, however far beyond its capacity |
| Evacuation.Conservation | src/libvirt_hypervisor.cpp:848-880 | over every run in every mode: total capacity falls by exactly one per successful call; if hosts are never dropped the length never changes, otherwise no listed entry is ever below 1 |
| Evacuation.HostConservation | src/libvirt_hypervisor.cpp:848-880 | for every host over every run: what is left plus what it received is what it had; without overbooking it never receives more than its capacity |
| Evacuation.CallsUntilExhausted | src/libvirt_hypervisor.cpp:852-873 | with overbooking off exactly as many compact or scatter calls succeed as there is total capacity, and the list is empty exactly then |
| Evacuation.RunIsDetermined | src/libvirt_hypervisor.cpp:848-873 | outside auto the step relation has exactly one run, the one the closed forms speak of |
| Evacuation.ErasedRun | src/libvirt_hypervisor.cpp:848-873 | outside auto, calls on position labels hand out the labels of what calls on names hand out |
| Evacuation.ErasedTaken | src/libvirt_hypervisor.cpp:848-880 | in every mode a step of a labelled list is, without the labels, a step of the plain list: host names are never looked at |
| Evacuation.RunCanBeLabelled | src/libvirt_hypervisor.cpp:848-880 | in every mode and for every tie order, each run on names is a run on positions with the names added |
| DestinationQueue.CapacityIsDifference | src/libvirt_hypervisor.cpp:769-775 | despite the unsigned subtraction and the conversion back to int, capacity is the true difference, negative when a host is overbooked |
| DestinationQueue.SortDescending | src/libvirt_hypervisor.cpp:874-878 | the library sort: a descending permutation, ties in any order |
| DestinationQueue.DestinationCapacities.Init | src/libvirt_hypervisor.cpp:784-801 | succeeds exactly if all destinations are reachable; lists them in order with their capacities, without overbooking only those with room; a failure leaves the list half filled and unfiltered |
| DestinationQueue.DestinationCapacities.GetEvacuateTasks | src/libvirt_hypervisor.cpp:803-831 | one task per local domain with all settings of the received task but the flags for concurrency and time measurement, and the list initialised for them, exactly if the local domains can be listed and all destinations are reachable; if listing fails the list is not touched |
| DestinationQueue.DestinationCapacities.GetNextDestination | src/libvirt_hypervisor.cpp:848-880 | the in-place decrement, pop, rotate or sort is one step of the specified relation, and what it leaves is stated for each mode name; an empty list throws |
| DestinationQueue.DestinationCapacities.NextFor | src/libvirt_hypervisor.cpp:882-894 | a task that names no mode is served as auto, and one without the flag may overbook |
| DestinationQueue.ReachedUpTo | src/libvirt_hypervisor.cpp:788-790 | the listed hosts are those before the first unreachable one, in order, with their capacities |
| DestinationQueue.DestinationCapacities.EvacuateInOrder | src/libvirt_hypervisor.cpp:882-900 | calls one after the other form a specified run, hand out its destinations in order, and throw exactly for the domains beyond its end |
| DestinationQueue.DestinationCapacities.EvacuateScattered | src/libvirt_hypervisor.cpp:784-900 | a whole node evacuated by scatter without overbooking: domain i gets entry i of the round table of the free hosts, or an error if i is not below the total free capacity |
| DestinationQueue.DestinationCapacities.EvacuateCompact | src/libvirt_hypervisor.cpp:784-900 | a whole node evacuated by "compact" without overbooking: each free host as often as it has room, in list order, then errors |
| DestinationQueue.DestinationCapacities.EvacuateCompactOverbooked | src/libvirt_hypervisor.cpp:784-900 | the same with overbooking: each host as often as it has room but at least once, then all hosts in turn, and never an error |
| DestinationQueue.DestinationCapacities.EvacuateAuto | src/libvirt_hypervisor.cpp:784-900 | a whole node evacuated by "auto": never an error while a host is listed, the list sorted afterwards, and the load optimal if and only if there are more domains than capacity above the host listed first |
| EvacuationThreads.InterleavingIsSequential | src/libvirt_hypervisor.cpp:848-880 | in every interleaving of Check and Take by the threads of one node evacuation the destinations in the order taken are those of a sequential run, and the threads together hold exactly these |
| EvacuationThreads.EnoughIsSafe | src/libvirt_hypervisor.cpp:852-855 | within one node evacuation: if hosts are never dropped, or there are no more threads than total capacity, no interleaving refuses a thread or takes from an empty list |
| EvacuationThreads.UnlockedCheckBreaksIff | src/libvirt_hypervisor.cpp:852-859 | within one node evacuation: some interleaving takes from an empty list if and only if hosts are dropped, the list starts non-empty, and the threads outnumber the total capacity |
| EvacuationMessages.RequestsBreakIff | src/libvirt_hypervisor.cpp:777-859 | for every sequence of node evacuations, with clearing, listing and filtering as steps of the loop thread: some environment and interleaving make a thread take from an empty list if and only if one of the requests is in danger, which is read off the requests alone |
| EvacuationMessages.TwoEvacuationsBreak | src/libvirt_hypervisor.cpp:784-790 | a node evacuation with default settings, naming any destination, and any second one are enough for a thread to take from an empty list |
| EvacuationMessages.UndisturbedIsSafe | src/libvirt_hypervisor.cpp:784-859 | a run of requests that never drop hosts is safe if no list is cleared or filtered between a Check and its Take |
| EvacuationMessages.NextRequestBreaks | src/libvirt_hypervisor.cpp:784-859 | whatever the next request lists: from every reachable state in which a thread is between Check and Take and the loop thread is free, there is a run in which this thread takes from an empty list |
| Migration.Frame.Migrate | src/libvirt_hypervisor.cpp:733-766 | for every combination of failing calls: the exact condition under which it moves, where it ends, which devices it has, what its shared memory device is like and whether it is the one it had, whether it is paused and repinned, what is suspended and subscribed, that other machines are untouched, and that an exception leaves exactly if something failed |
| Migration.Frame.MigrateBody | src/libvirt_hypervisor.cpp:736-765 | up to the end of the scope the machine is on the destination exactly if every call so far worked, stripped of what the guards hold, and all guards constructed point to where it is |
| Migration.Frame.Leave | src/libvirt_hypervisor.cpp:733-766 | the loop over live guards, last first, is the specified unwinding |
| Migration.Frame.NewPscom | src/pscom_handler.cpp:71-107 | succeeds exactly if nothing is expected, or after the request exactly as many replies as expected have been read; else it has read all there are, and the effects already made stay |
| Migration.Frame.NewShared | src/ivshmem_handler.cpp:108-128 | succeeds for no device or for one that detaches; more than one throws and takes nothing |
| Migration.ScopeExit | src/libvirt_hypervisor.cpp:742-766 | leaving the scope moves nothing, restores the machine as far as its own calls work, and throws unless the machine moved and all restoring calls worked |
| Migration.InstanceAtExit | src/repin_handler.cpp:35-65 | devices, shared memory, run state and pinning of the machine after any exit, normal or by exception, as a function of the calls that work |
| Migration.SharedMemoryReturnsIff | src/ivshmem_handler.cpp:27-66 | after a migration that ended in any way the shared memory device is the one that was there if and only if it was never taken, there was none, or it can be attached and is plain |
| Migration.AliasedDeviceIsRenamed | src/ivshmem_handler.cpp:37-62 | a device whose alias differs from its name comes back under the alias, with its size and address, although nothing failed |
| Migration.MigrationResumesPscomLast | src/libvirt_hypervisor.cpp:741-749 | on leaving a migration the processes stay suspended until all other guards are done and the machine is in its final state |
| Guards.UnwindThrowsIff | src/repin_handler.cpp:35-46 | for every stack of guards: after a normal end an exception leaves the scope if and only if some guard cannot restore its machine, whichever destructor throws first |
| Guards.UnwindReattaches | src/pci_device_handler.cpp:349-378 | for every stack and every failure of other guards: a machine its guards point to gets back exactly what its device guard gets done of the held PCI devices, and its shared memory exactly if that call works |
| Guards.UnwindMovesNothing | src/libvirt_hypervisor.cpp:461-474 | unwinding neither moves a machine nor touches a snapshot |
| Guards.UnwindLeavesOthers | src/libvirt_hypervisor.cpp:461-474 | a domain no guard points to is unchanged by unwinding |
| Guards.UnwindingResumes | src/repin_handler.cpp:54-65 | under an exception a machine with a cpu map is resumed exactly if the resume call works, and is never repinned |
| Guards.UnwindResumes | src/repin_handler.cpp:35-65 | with or without an exception, and also when one starts midway, a machine whose own calls work runs afterwards |
| Guards.UnwindResumesPscom | src/pscom_handler.cpp:109-126 | suspended processes are resumed exactly if the request can be sent, and the subscription always ends |
| Guards.PscomIsResumedLast | src/libvirt_hypervisor.cpp:741-749 | with the pscom guards at the bottom, all machines are in their final state before any process is resumed |
| Guards.RebuiltIsHandedBack | src/ivshmem_handler.cpp:37-65 | what is written back for a device has its size, unit and address, its old alias as name and alias, and the model ivshmem-plain, and nothing else does |
| Guards.RebuiltIsSameIff | src/ivshmem_handler.cpp:27-66 | devices read and written back are the same if and only if all names and aliases agree and all models are ivshmem-plain |
| SwapMigration.AlwaysInv | src/libvirt_hypervisor.cpp:449-549 | the invariant over every reachable state of every run: where each machine is, where each guard points, which snapshots exist, and that machines and guards together hold exactly the devices of the start, shared memory rewritten |
| SwapMigration.SwapDuplicatesNothing | src/libvirt_hypervisor.cpp:478-548 | in every state, whatever was thrown: at most one active copy of each machine, its contents on disk if there is none, and it is lost exactly between the deletion of the source record and the revert when redefining had failed |
| SwapMigration.CompleteSwapExchanges | src/libvirt_hypervisor.cpp:478-515 | when the statements of a snapshot swap have all ended normally, the machines are exchanged and no snapshot is left |
| SwapMigration.SwapRestores | src/libvirt_hypervisor.cpp:458-549 | after leaving by return or exception, a running machine its guards follow runs with its PCI devices, and has exactly the devices it had if and only if its shared memory was not taken or is plain; the guards follow unless the last snapshot deletion threw, and then it is restored only if it had nothing to restore |
| SwapMigration.GuardsFollow | src/libvirt_hypervisor.cpp:500-514 | at every exit all guards of a running machine point to where it runs; after a failed last deletion none of its guards does |
| SwapMigration.AimedIsResumed | src/libvirt_hypervisor.cpp:458-474 | a machine its guards point to runs again after unwinding, with its PCI devices and with its shared memory as the guard rewrites it, at whatever stage the scope was left |
| SwapPscom.SwapPscomAtExit | src/libvirt_hypervisor.cpp:461-463 | at every end of a swap, also one in the middle of the constructors: processes stay suspended if and only if they were asked to and the resume request cannot be sent, or their own constructor threw after its request; a new subscription is left if and only if that constructor threw after subscribing |
| SwapMigration.RevertAlwaysFits | src/libvirt_hypervisor.cpp:420-429 | because the smaller machine is snapshotted: if the larger one's migration fits, no free memory is ever negative and the later revert fits |
| SwapThreads.InterleavingDoesNotMatter | src/libvirt_hypervisor.cpp:520-548 | any two runs in which the two threads have come equally far have the same cluster and the same guards |
| SwapThreads.ParallelOutcome | src/libvirt_hypervisor.cpp:520-548 | what the threads throw never leaves the parallel path; at its end each machine is on exactly one host, the far one just if its thread succeeded, with its three guards pointing there |
| SwapOutcomes.SwapThrowsIff | src/libvirt_hypervisor.cpp:449-549 | at every end of a swap: an exception leaves it if and only if one of its own statements threw or a restoring call of one of the two machines fails |
| SwapOutcomes.SwapHandsBack | src/ivshmem_handler.cpp:37-65 | at every end of a swap: a machine its guards follow gets its shared memory back with size, unit and address, under its alias, if that can be attached; one whose guard was never constructed still has the one it had |
| SwapOutcomes.SmallerIsHalted | src/libvirt_hypervisor.cpp:516-519 | the machine that is halted is the smaller one, and of two of the same size the remote one |
| SwapOutcomes.SwapRunState | src/repin_handler.cpp:35-65 | at every end of a swap and for every choice of failing calls: a machine is repinned if and only if its statements ended normally, its own repin call works and, for the local one, the remote guard did not throw first; and exactly when a moved machine stays paused |
| SwapOutcomes.LocalCanMissRepin | src/libvirt_hypervisor.cpp:469-474 | from every start there is a complete swap after which the local machine runs but has not been repinned, because a call for the remote one failed |
| SwapOutcomes.SwapResumesPscomLast | src/libvirt_hypervisor.cpp:461-474 | at every end of a swap the processes of both machines stay suspended until both machines are in their final state |
| SwapOutcomes.MachineCanBeLost | src/libvirt_hypervisor.cpp:505-509 | from every start there is a run, thrown out of the revert, after which the smaller machine runs nowhere and has no snapshot record, also once all guards are gone |
| SwapOutcomes.MachineCanBeLeftBare | src/libvirt_hypervisor.cpp:508-514 | from every start there is a run, thrown out of the last deletion, after which the smaller machine, if it had anything to restore, is not restored although its restoring calls work |
| SwapOutcomes.SwapCanComplete | src/libvirt_hypervisor.cpp:478-515 | from every start with supported devices a snapshot swap can come to its end, with the machines exchanged |
| SwapOutcomes.FailuresGoUnnoticed | src/libvirt_hypervisor.cpp:543-547 | from every start there is a run in which both threads fail and, if the restoring calls work, no exception leaves the swap, with both machines where they were |
| PciDevices.DeviceCache.GetDevices | src/pci_device_handler.cpp:171-225 | exactly the host's devices of the type, as the same objects on every call; in the sorted form all unhinted devices precede all hinted ones |
| PciDevices.PciDeviceHandler.Attach | src/pci_device_handler.cpp:236-266 | for every hint state and shuffle: succeeds exactly if a device of the type is free, takes one on success and none on failure, and hints exactly the devices tried |
| PciDevices.PciDeviceHandler.Detach | src/pci_device_handler.cpp:268-328 | every device of the machine is read from text, found in the cache under its own type and detached, and only those whose detaching fails stay; the counts are the numbers owned per type, stuck ones included, with no entry for types not owned |
| PciDevices.PciDeviceHandler.AttachAll | src/pci_device_handler.cpp:236-266 | the devices a machine owns after a sequence of attaches are, per type, those asked for up to the first failure |
| PciDevices.PciDeviceHandler.AttachThenDetach | src/pci_device_handler.cpp:236-328 | a round trip through text and cache: the host is as before but for stuck devices, and the counts are the numbers attached per type |
| PciDevices.DetachAll | src/pci_device_handler.cpp:311-320 | each device is detached once unless it is stuck, and none stays hinted |
| PciDevices.GroupByType | src/pci_device_handler.cpp:283-294 | looking devices up by name puts every address into the group of its own type and no other |
| PciDevices.TryingFinds | src/pci_device_handler.cpp:250-265 | going through the cached devices in any order finds a free one exactly if there is one |
| PciDevices.MigrateDevicesGuard.constructor | src/pci_device_handler.cpp:334-347 | the guard holds per type what the machine owned, and the machine owns only what is stuck |
| PciDevices.MigrateDevicesGuard.Reattach | src/pci_device_handler.cpp:368-378 | per type, devices attached so far plus devices still to do is what was recorded, also when it throws midway; it completes exactly if the host has enough free devices of each type, and takes none from other machines; when it throws, at most one type is partly done |
| PciDevices.MoveDevices | src/pci_device_handler.cpp:334-378 | a machine's devices on their way to another host or, after a failed migration, back to the same: succeeds exactly if every type fits, and then the machine owns as many more of each type as were recorded; going back to the same host always succeeds if all could be detached and are usable |
| DeviceGuards.ReattachIsRelease | src/pci_device_handler.cpp:349-378 | reattaching one device after the other, up to the first that cannot be attached, changes the machine exactly as releasing the guard in the large model does, and throws exactly then |
| DeviceGuards.ConstructorIsLarge | src/pci_device_handler.cpp:334-347 | detaching records exactly the types of the machine and leaves it those that are stuck, as the guard's constructor in the large model does |
| PciDevices.AttachConserves | src/pci_device_handler.cpp:371-376 | one attach and one decrement keep the balance of every type |
| PciNames.HexRoundTrip | src/device_utility.hpp:34-40 | every number below the range of unsigned long written with base and any padding is text in lower case and is read back by base-0 parsing (section 7.22.1.4 of ISO/IEC 9899:2011) |
| PciNames.HexIsTheText | src/device_utility.hpp:34-40 | the only lower-case text of that length with that value is the one written |
| PciNames.HexByExample | src/device_utility.hpp:38 | every digit is written as itself, most significant first |
| PciNames.DecimalRoundTrip | src/pci_device_handler.cpp:94-97 | a decimal number is read as what it is, whatever follows it, and throws if it does not fit |
| PciNames.OctalRoundTrip | src/pci_device_handler.cpp:94-97 | a number after a leading zero is read as octal |
| PciNames.NoDigitThrows | src/pci_device_handler.cpp:94-97 | text that does not begin with a digit throws |
| PciNames.FieldsAreCut | src/pci_device_handler.cpp:94-104 | numbers too large for their field lose their upper digits |
| PciNames.AddressTextShape | src/pci_device_handler.cpp:106-114 | an address is written as base and lower-case digits, as many as each field has |
| PciNames.NameByExample | src/pci_device_handler.cpp:124-130 | bus ten in slot zero is called pci_0000_0a_00_0 |
| PciNames.AddressRoundTrip | src/pci_device_handler.cpp:90-114 | every attribute carries its own field, and every address survives being written and parsed again |
| PciNames.IdRoundTrip | src/pci_device_handler.cpp:48-75 | every id survives being sent in a message |
| PciNames.NameFmtInjective | src/pci_device_handler.cpp:124-130 | different addresses have different node device names |
| CpuMaps.PinVcpuToCpus | src/utility.cpp:100-107 | binary digit b % 8, from the least significant, of byte b / 8 is one exactly if b is in the cpu list; a write beyond the map happens exactly if a listed cpu is outside |
| CpuMaps.RepinVcpus | src/utility.cpp:109-117 | every virtual cpu is pinned to exactly its list, in order, up to the first that cannot be pinned or names a cpu beyond the map; nothing is pinned if the number of cpus cannot be told |
| CpuMaps.NodeCpusFit | src/utility.cpp:92-98 | lists that name only cpus of the node never lead beyond a map of the computed length, and no shorter one would do |
| CpuMaps.UseCpu | src/utility.cpp:103-104 | setting the bit of one cpu leaves the bits of all others |
| ThreadCounter.CountIsLive | src/task.cpp:28-39 | in every reachable state the counter is the number of live counters, and with one waiter a sleeping waiter means it is positive |
| ThreadCounter.WaiterLeavesIdle | src/task.cpp:41-48 | the wait returns only in a state without live counters |
| ThreadCounter.AllEndedIffAllConstructed | src/task.cpp:28-48 | over every run, at the step where a waiter goes back: all threads spawned so far have ended if and only if all of them had constructed their counter |
| ThreadCounter.ThreadHasEndedIff | src/task.cpp:28-48 | the same for each single thread |
| ThreadCounter.WaitMissesSpawnedThread | src/task.cpp:170-171 | for any number of waiters, any of them and any thread, a run in which that waiter goes back while that thread has not ended |
| ThreadCounter.WakeUpLostIff | src/task.cpp:34-48 | some run leaves a waiter asleep with nobody to wake it if and only if two or more threads wait |
| TaskExecution.OneReplyInOrder | src/task.cpp:159-169 | whatever the order of finishing, a container has exactly one reply with one result per subtask in subtask order |
| TaskExecution.RunsEndInReply | src/task.cpp:159-169 | every container is answered: a run has at most 4n + 2 steps for n subtasks, and it can go on exactly as long as the reply has not been sent |
| TaskExecution.DeferredRunInOrder | src/task.cpp:141-167 | while a deferred subtask runs, the deferred ones before it are done and those after it have not begun, whatever the asynchronous ones do |
| CpuMaps.BitIsDigit | src/utility.cpp:103-104 | the bit that is set for a cpu is the binary digit counted from the least significant |
| TaskLoop.TaskHandler.Execute | src/task.cpp:146-172 | which containers are answered here, which by a detached thread and which by an exception; the message is then answered or has a thread, exactly once, or, after an exception other than quit, not yet |
| TaskLoop.TaskHandler.Handle | src/task_handler.cpp:58-78 | one turn answers its message, gives it a thread, or fails to send, exactly one of these and no other message, and stops the loop exactly for a quit whose reply went out |
| TaskLoop.TaskHandler.Loop | src/task_handler.cpp:56-80 | with threads beginning and ending between any two sends of the loop thread: every message up to the first answered quit is answered, has a thread, or could not be answered, exactly one of these |
| TaskLoop.TaskHandler.WaitForThreads | src/task.cpp:41-48 | the destructor returns when no thread that has begun is left; if none has begun it returns at once and answers nothing |
| TaskLoop.TaskHandler.Serve | src/task_handler.cpp:50-80 | loop and destructor together: no message is answered twice or unasked, and if sending works a handled message is answered, exactly once, if and only if it has no thread left that never began |
| TaskLoop.TaskHandler.ServeUnanswered | src/task.cpp:170-171 | for every container given to a thread and a quit after it there is a run, with every send working, that answers only the quit |

## Left out

- Migrate: the loops over PCI devices are modelled in `PciDevices`; here a detach takes and a reattach gives a multiset of types, which `DeviceGuards` justifies, and the guards are values on the frame's stack, not separate heap objects with aliased domain handles.
- SwapMigration.SwapRestores: for machines whose own restoring calls work (`Works`); detaching PCI devices is taken to succeed in a swap.
- SwapMigration.AlwaysInv: swap migration is a state machine on values, because its threads interleave; updating guards in place shows as replacing them in the stack.
- EvacuationThreads.UnlockedCheckBreaksIff: for one node evacuation, with a given list and number of threads; several are in `RequestsBreakIff`, where capacities, reachable hosts and numbers of domains are whatever the environment makes them.
- EvacuationThreads.InterleavingIsSequential: for one node evacuation; once another request has cleared or changed the list, the destinations handed out since then are those of no single run.
- EvacuationMessages.RequestsBreakIff: the unlocked check and each of clearing, listing one host and filtering are atomic steps; that they are also data races in C++ is not modelled.
- DestinationQueue.CapacityIsDifference: for counts within int; a capacity that is decremented more than 2^31 times is unbounded in the model.
- ThreadCounter.CountIsLive: the counter is a natural number, not a 32-bit unsigned one.
- PciDevices.PciDeviceHandler.Attach: one call at a time; races between threads on the unlocked hints are not modelled.
- PciDevices.PciDeviceHandler.Detach: domains whose devices are known to the host, at distinct addresses; a null node device is not modelled.
- PciDevices.DeviceCache.GetDevices: a device matches by its id; the search for the id inside the text of the description is not modelled, nor hardware that changes.
- TaskExecution.RunsEndInReply: for subtasks that end, with exceptions derived from `std::exception`; others, such as those of the SSH session when a start task probes a domain (src/libvirt_hypervisor.cpp:51-64), are not caught and are not modelled.
- TaskLoop.TaskHandler.Loop: sending is atomic; an exception from receiving itself, without a message, is not modelled, nor is failing to create a thread.
- PciNames.HexRoundTrip: parsing starts at the first character; leading blanks and signs, which are never written, are not modelled.
- The choice between the snapshot path and the parallel path: it compares domain sizes in KiB with free memory in bytes (src/libvirt_hypervisor.cpp:439-446), so both choices are allowed.
- libvirt, SSH, MQTT, YAML and XML libraries: replaced by steps that may fail and by parsed values.
- `start`, `stop`, `suspend`, `resume`, `repin` as tasks, connecting, host addresses, detection of pscom processes: thin wrappers with no property across calls.
- Timeouts, time measurement and logging: no effect on the protocol state.
- The dummy and ponci hypervisors, configuration, main programs, scripts: plumbing.
- Randomness of the shuffle: any permutation of the unhinted devices.
- `retry_counter`: it is copied into tasks and never read.
