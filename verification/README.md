# vsphere-facade: a verified model

vsphere-facade offers virtual-machine operations over vCenter: it compiles a request into a list of device
changes, runs multi-step transactions with rollback, answers inventory queries from a shared cache, and
executes accepted requests asynchronously, reporting each by a callback. This project models those parts in
Dafny and proves what they keep, over all inputs, all outcomes vCenter may decide on, and all runs.

`dafny verify dfyconfig.toml` checks the project.

## How it is modelled

* **vCenter** (`VSphere`) is a map from machine ID to a machine with power state, hardware and devices, and a
  log of the calls that reach it. Every call takes an outcome: done, refused without effect, or an error
  although the call took effect (a wait that timed out). Waits and timeouts are such outcomes, and so is a state
  that cannot be read, at which the source panics (helper/virtualmachine/virtual_machine.go:480-483). What vCenter
  chooses itself (device keys, the datastore a new disk lands on, the ID of a clone) is a parameter.
* **The change compiler** (`UnitNumbers`, `Reconfiguration`) follows the source loop by loop on a mutable
  device list. A change entry refers to a position of that list, so that editing a device after an entry was
  made also shows in the entry, as the pointers of the source do. `ReconfigurationMeaning` says what the
  compiled list means when vCenter carries it out, without mentioning how it was compiled, and `PlainTerms` reads the
  same off request and machine alone. Statements of that second kind, which use none of the functions the methods are
  tied to, are there for every part; `Answers` and `RunsInSteps` hold those about queries and about runs of requests.
* **Transactions** (`Reconfigurer`, `Relocation`, `Operator`, `NicKeys`, `Deployer`, `BatchOperations`) are
  methods that change the vCenter object. Panics of the source are a result of their own.
* **The cache** (`VCCache`, `Inventory`, `CacheRuns`): one store for listings, worker pools and refresh tickers
  of all vCenters, written at most once per key. The query methods are tied to functions of the store, and
  `CacheRuns` proves that over every run, with interleaved calls, they answer as without a cache, or exactly when.
* **Requests** (`TaskLifecycle`, `Startup`): a step relation of handlers, two pools, task bodies, the durable
  store, crashes, restarts and the recovery pass, and the recovery loop itself as a method that may be cut short
  after any call or deletion.
* **Values** (`AesText`, `Cidr`, `ParentPath`): string encryption over any 16-byte block permutation, prefix
  masks, and the walk up the inventory tree. Integers of 32 and 64 bits wrap explicitly (`Wrappers`).

## Where the code and its promises differ

Each point is proved by the member in brackets.

* A machine that had to be stopped for a reconfiguration stays off: the guard at
  vsphere/workerpool/virtual_machine_operator.go:190 contradicts `stopFirst`, although
  test/operator_reconfigure_test.go:33 expects the machine to run again (`Operator.VirtualMachineOperator.Reconfigure`).
* A request for another CPU count with the cores per socket unchanged is dropped and reported as a success
  (`Operator.RequestIsMet`, `Operator.DroppedCPUCount`).
* A running machine is stopped, and stays off, for a CPU count that is not sent or not even set, although none of the
  code's own hot-plug rules calls for it (`Operator.NeedlessStop`, `Operator.StoppedForNothing`).
* A deployment does not roll back when the machine fails to start, panics when the template has no card and cards
  were asked for, and reports success when the clone came back without a machine (`Deployer.VirtualMachineDeployer.Deploy`).
* Resource pools asked for by ID are never found without the cache (the error check at
  helper/resourcepool/resource_pool.go:97 is inverted) and are with it; asked for by one owner they are answered from
  the cache with every pool of that kind of owner (`CacheRuns.PoolsByID`, `CacheRuns.PoolsByOwner`).
* A listing filled while a datacenter could not be read is kept as if complete (`CacheRuns.PartialFillSticks`).
* `CleanAll` of one vCenter also cleans a vCenter whose ID it is a prefix of, all of them if its own is empty, and
  drops worker pools (`VCCache.CleanAllOverreaches`, `CacheRuns.CleanAllDropsPools`). The listing of resource pools lies under a key prefixed
  twice, so cleaning or ignoring it by its name misses it (`CacheRuns.CleanMissesPools`, `CacheRuns.IgnoringPoolsByName`);
  guest families are stored under such a key and never found (`VCCache.OSFamiliesAreNeverHit`).
* The handlers for reconfiguration and relocation share the variable of the submission's error with the task, so a
  task that fails early has its record cancelled while it runs (`TaskLifecycle.DeniedWhileRunning`).
* Callbacks may be sent twice. That can happen exactly after recovery's snapshot finds a record whose request has been
  called back or whose task may yet do so (`TaskLifecycle.SafeRunCallsOnce`, `TaskLifecycle.UnsafeCallsTwice`; runs:
  `TaskLifecycle.CalledBackTwice`, `TaskLifecycle.CalledBackAgainAfterCrash`, `TaskLifecycle.ReportedTwice`). And a
  panic deletes the record without a callback (`TaskLifecycle.PanicIsSilent`).
* Recovery looks for a field `callback`, reconfiguration requests write `callBack`, so their failure goes to the
  default address (`Startup.ReachesTheSameAddress`).
* The sender reads the default section before the request's own address. Without that section every callback
  panics; with the section but no address at all it panics too (`Startup.TaskReceiver.CallbackErr`,
  `Startup.Recoverability`, `Startup.SectionMissing`). Recovery runs in a goroutine of its own (main.go:42), where
  nothing recovers the panic, so the process ends, and ends again at every start while the record is stored, unless
  the pass meets a record first that does not parse: that stops it without a panic and hides all others
  (`Startup.TaskReceiver.InterruptTaskCallback`).
* A machine whose power state cannot be read ends its batch, and the callback with the reports is never sent
  (`BatchOperations.BatchHandler.Run`, `BatchOperations.UnreadableEndsBatch`).
* Waiting for a clone that fails for another reason than the deadline panics, perhaps with a machine left behind
  (`Deployer.VirtualMachineDeployer.Deploy`, helper/virtualmachine/virtualmachineclone/virtual_machine_clone.go:100-106).
* A machine outside any datacenter is located in the topmost ancestor (`ParentPath.DatacenterOrRoot`).

## Model

| member | source | states |
|---|---|---|
| UnitNumbers.GenerateUnitNum | helper/virtualmachine/virtualmachinereconfig/virtual_machine_reconfig.go:736-766 | the loops on 32-bit numbers return the fresh numbers of the specification for every device list and count; nothing overflows below 2^31 - 9 entries |
| UnitNumbers.Allocate | helper/virtualmachine/virtualmachinereconfig/virtual_machine_reconfig.go:753-765 | the allocation loop ends and returns the first free numbers from the start |
| UnitNumbers.LeastFreeIsLeast | helper/virtualmachine/virtualmachinereconfig/virtual_machine_reconfig.go:753-765 | the numbers increase, are unused and at least the start, and no unused number below one of them is left out |
| UnitNumbers.LeastFreeIsUnique | helper/virtualmachine/virtualmachinereconfig/virtual_machine_reconfig.go:753-765 | that promise determines the result: any list that keeps it is the allocator's |
| UnitNumbers.LeastFreeBound | helper/virtualmachine/virtualmachinereconfig/virtual_machine_reconfig.go:736-766 | the i-th number exceeds the start by at most i plus the number of used entries |
| UnitNumbers.FreshUnitsAreFresh | helper/virtualmachine/virtualmachinereconfig/virtual_machine_reconfig.go:736-766 | new numbers clash with no device of any kind, increase, and for disks never take 7 |
| Devices.ApplyCarriesOut | helper/virtualmachine/virtualmachinereconfig/virtual_machine_reconfig.go:132-196 | vCenter refuses a change list exactly when it names a device after removing it; otherwise the result is removal of the removed, the last edit of each edited, and one new device for each addition |
| Reconfiguration.RemoveDisk | helper/virtualmachine/virtualmachinereconfig/virtual_machine_reconfig.go:345-370 | appends exactly one removal for each listed disk whose key is asked for and whose unit number is not 0 |
| Reconfiguration.EditDisk | helper/virtualmachine/virtualmachinereconfig/virtual_machine_reconfig.go:423-474 | edits the disks of the list in place in request order, skips unknown keys, and appends one entry for each edit |
| Reconfiguration.AddDisk | helper/virtualmachine/virtualmachinereconfig/virtual_machine_reconfig.go:372-421 | numbers the requested disks with the fresh numbers and appends their additions; fails without a controller, panics on an unknown format |
| Reconfiguration.RemoveNic | helper/virtualmachine/virtualmachinereconfig/virtual_machine_reconfig.go:504-520 | appends one removal for each card whose key is asked for |
| Reconfiguration.EditNic | helper/virtualmachine/virtualmachinereconfig/virtual_machine_reconfig.go:522-665 | edits the cards in place in request order, or fails at the first edit of an unknown network |
| Reconfiguration.AddNic | helper/virtualmachine/virtualmachinereconfig/virtual_machine_reconfig.go:667-734 | numbers the requested cards with the fresh numbers and appends their additions, or fails on an unknown network or adapter type |
| Reconfiguration.ParseReconfigureDisk | helper/virtualmachine/virtualmachinereconfig/virtual_machine_reconfig.go:304-325 | removals, then edits, then additions, stopping at the first failure |
| Reconfiguration.ParseReconfigureNic | helper/virtualmachine/virtualmachinereconfig/virtual_machine_reconfig.go:476-502 | the same for cards, and nothing at all on a machine without cards |
| Reconfiguration.CapacityRoundTrip | vsphere/virtual_machine.go:319-324 | for every size in GiB the capacities fit 64 bits, the bytes are 1024 times the KB, and the size reported from them is the one asked for (vsphere/virtual_machine.go:324 against virtual_machine_reconfig.go:384-386) |
| ReconfigurationMeaning.AppliesAsDescribed | helper/virtualmachine/virtualmachinereconfig/virtual_machine_reconfig.go:132-196 | for every request and device list: vCenter accepts the compiled list if and only if no device is both removed and edited, and then the machine has exactly the remaining devices with their edits and one device for each addition |
| ReconfigurationMeaning.SystemDiskStays | helper/virtualmachine/virtualmachinereconfig/virtual_machine_reconfig.go:345-370 | a disk with unit number 0 survives every request and keeps its number |
| ReconfigurationMeaning.UnitsAreFresh | helper/virtualmachine/virtualmachinereconfig/virtual_machine_reconfig.go:372-421 | new devices share a unit number with no earlier device, new devices of one kind not with each other, and no new disk takes 7 |
| ReconfigurationMeaning.EditedKeepsIdentity | helper/virtualmachine/virtualmachinereconfig/virtual_machine_reconfig.go:423-474 | edits change neither kind, key nor unit number of a device |
| PlainTerms.WhatIsGone | helper/virtualmachine/virtualmachinereconfig/virtual_machine_reconfig.go:345-370 | a device of the machine is gone exactly when its key is asked to be removed and it is a disk whose unit number is not 0, or a card (504-520) |
| PlainTerms.AcceptedWhen | helper/virtualmachine/virtualmachinereconfig/virtual_machine_reconfig.go:132-196 | vCenter takes the list exactly when no key is removed and edited at once, an edit of a card counting only if it gives a network or another address |
| PlainTerms.WhatStays | helper/virtualmachine/virtualmachinereconfig/virtual_machine_reconfig.go:423-474 | every field of a disk or card that stays is what the last edit that gives it gives, in GiB, under the network's name, with a manual address (522-665); everything else is as it was |
| PlainTerms.NewDiskIs | helper/virtualmachine/virtualmachinereconfig/virtual_machine_reconfig.go:372-421 | the i-th new disk has the size, mode, sharing and format of the i-th addition and the i-th free number from 1 on without 7 |
| PlainTerms.NewCardIs | helper/virtualmachine/virtualmachinereconfig/virtual_machine_reconfig.go:667-734 | the i-th new card is on the network of the i-th addition under its name, with the i-th free number from 7 on, and has an address only if that is to be manual |
| PlainTerms.FirstFreeNumbers | helper/virtualmachine/virtualmachinereconfig/virtual_machine_reconfig.go:736-766 | disks start at 1 and never get 7, cards start at 7; numbers increase, are no device's, and none that is free is left out |
| PlainTerms.HowManyAreNew | helper/virtualmachine/virtualmachinereconfig/virtual_machine_reconfig.go:372-421 | one device for each disk asked for, and one for each card if the machine has any (480-483) |
| PlainTerms.EndsWhen | helper/virtualmachine/virtualmachinereconfig/virtual_machine_reconfig.go:132-196 | exactly which requests fail and which panic, read off the machine and the request |
| PlainTerms.FilesAndPolicies | helper/virtualmachine/virtualmachinereconfig/virtual_machine_reconfig.go:345-474 | files are destroyed with removed disks and created with new ones only; edits and additions carry their storage policies in request order |
| Reconfigurer.BuildDeviceChange | helper/virtualmachine/virtualmachinereconfig/virtual_machine_reconfig.go:160-177 | the payload sent is that of the compiled request, and the requested devices carry their numbers |
| Reconfigurer.Reconfigure | helper/virtualmachine/virtualmachinereconfig/virtual_machine_reconfig.go:132-196 | success, failure and panic in terms of request, listing and outcome; whenever the change took effect, reported as an error or not, the machine is the one described and the hardware the one sent, and otherwise nothing changed; only disks and cards asked to be removed are gone, and on success all of them but system disks; power and other machines stay |
| Reconfigurer.SubmittedWhen | helper/virtualmachine/virtualmachinereconfig/virtual_machine_reconfig.go:132-196 | a request reaches vCenter exactly when machine and devices can be read, disks find a controller and have a known format, and, on a machine with a card, the cards and what is named exist |
| Reconfigurer.WhatIsGoneAfter | helper/virtualmachine/virtualmachinereconfig/virtual_machine_reconfig.go:345-370 | and after every request that took effect exactly the named cards and the named disks that are no system disk are gone |
| Reconfigurer.BuildUnitMap | vsphere/workerpool/virtual_machine_operator.go:250-254 | a map from unit number to device holds a device of the kind under each number in use, and nothing else |
| Reconfigurer.NewDeviceByUnit | vsphere/workerpool/virtual_machine_operator.go:250-261 | the device of its kind found under the i-th new number is the i-th new device, even where old devices share numbers |
| Reconfigurer.Origin | helper/virtualmachine/virtualmachinereconfig/virtual_machine_reconfig.go:132-196 | every device after a request is an earlier one with its edits or one of the additions |
| VSphere.VCenter.PowerOn | helper/virtualmachine/virtual_machine.go:298-325 | success means on; a running machine is not started again; an unreadable state panics; only this machine changes, and only its power |
| VSphere.VCenter.PowerOff | helper/virtualmachine/virtual_machine.go:327-354 | success means off; a stopped machine is not touched; an unreadable state panics |
| VSphere.VCenter.Shutdown | helper/virtualmachine/virtual_machine.go:356-380 | success means off by the guest; a stopped machine is not touched; an unreadable state panics |
| VSphere.VCenter.Destroy | helper/virtualmachine/virtual_machine.go:382-403 | which outcomes make the machine disappear, that a failed lookup counts as success, when an unreadable state panics, that a machine not off is powered off first and destroyed only if that worked, and that no other machine changes |
| Operator.VirtualMachineOperator.PowerOff | vsphere/workerpool/virtual_machine_operator.go:44-53 | with shutdown first a machine that is not off gets a guest shutdown, and a hard power-off only after that was refused; without, the hard power-off alone; exactly which outcomes succeed and panic; success leaves the machine off |
| Operator.VirtualMachineOperator.Restart | vsphere/workerpool/virtual_machine_operator.go:60-71 | guest shutdown, hard power-off if that was refused, and a start unless the machine still runs; success leaves the machine on; exactly which outcomes succeed and panic |
| Operator.VirtualMachineOperator.Plan | vsphere/workerpool/virtual_machine_operator.go:119-176 | what is sent, whether that is anything, and whether the code stops a running machine for it |
| Operator.WhatIsSent | vsphere/workerpool/virtual_machine_operator.go:124-150 | the CPU part if one of its numbers is asked for and the cores per socket differ, memory if it is asked for and differs |
| Operator.StopsWhen | vsphere/workerpool/virtual_machine_operator.go:155-176 | a running machine is stopped exactly for less memory, or a growth or shrinking whose hot-plug flag is false |
| Operator.NeedlessStop | vsphere/workerpool/virtual_machine_operator.go:124-176 | a machine that by the code's own hot-plug rules cannot take what is sent while it runs is stopped; by those rules it is stopped needlessly if and only if the only reason is a CPU count that is not sent, the cores per socket being unchanged, or not set |
| Operator.StoppedForNothing | vsphere/workerpool/virtual_machine_operator.go:124-176 | two machines and requests with a needless stop, one of each kind |
| Operator.VirtualMachineOperator.Reconfigure | vsphere/workerpool/virtual_machine_operator.go:119-197 | the exact calls: how a machine is stopped, and what is then submitted in which state; by the code's own rules what is submitted to a running machine it can take running; exactly which outcomes succeed and panic; hardware, devices and power afterwards also when an error is reported; a machine that was stopped stays off |
| Operator.RequestIsMet | vsphere/workerpool/virtual_machine_operator.go:124-150 | the hardware after a completed request is the one asked for if and only if it does not ask for another CPU count with the cores per socket unchanged |
| Operator.DroppedCPUCount | vsphere/workerpool/virtual_machine_operator.go:124-150 | a concrete request that is dropped |
| Operator.VirtualMachineOperator.ReconfigureDisk | vsphere/workerpool/virtual_machine_operator.go:213-284 | success puts every new disk on the datastore it asked for, or leaves it where it landed, removes exactly the named disks that are no system disk, sends to relocation exactly the disks that have to move, and leaves the machine vCenter would have made by putting them there at once; exactly which inputs and outcomes fail or panic; the whole machine after each of them, as after a relocation that fails with the disks added |
| Operator.VirtualMachineOperator.FindMoves | vsphere/workerpool/virtual_machine_operator.go:247-269 | looking new disks up by unit number finds exactly those moves |
| Operator.WhatMoves | vsphere/workerpool/virtual_machine_operator.go:247-269 | exactly the new disks that asked for another datastore than the one they landed on are relocated, each there |
| Operator.DiskRequestSucceedsWhen | vsphere/workerpool/virtual_machine_operator.go:213-284 | a disk request succeeds if and only if everything can be read, disks can be added, no key is both removed and edited, and the disks that have to move can be |
| Operator.VirtualMachineOperator.MayRelocate | vsphere/workerpool/virtual_machine_operator.go:220-236 | the positions of the disks that name a datastore, in order |
| Operator.RelocationGrantsWishes | vsphere/workerpool/virtual_machine_operator.go:213-284 | relocating those disks gives the machine described with every new disk landed where it was asked for, and moves nothing else |
| Operator.MovesFault | helper/virtualmachine/virtualmachinerelocate/virtual_machine_relocate.go:156-236 | relocation panics exactly when a disk to move names a datastore that does not exist |
| Relocation.ParseStorage | helper/virtualmachine/virtualmachinerelocate/virtual_machine_relocate.go:156-236 | the locators sent are one for each disk that names a datastore; exactly which disks fail or panic |
| Relocation.ChecksOut | helper/virtualmachine/virtualmachinerelocate/virtual_machine_relocate.go:156-236 | the check ends well exactly when every disk is listed and names no unknown datastore |
| Relocation.FirstDecides | helper/virtualmachine/virtualmachinerelocate/virtual_machine_relocate.go:156-236 | otherwise the first disk not in order decides between failure and panic |
| Relocation.LocatorsAre | helper/virtualmachine/virtualmachinerelocate/virtual_machine_relocate.go:156-236 | the locators are the disks that name a datastore, with it |
| Relocation.RelocateStorage | helper/virtualmachine/virtualmachinerelocate/virtual_machine_relocate.go:55-95 | the call sent and the devices moved, that nothing is sent when there is nothing to move, and that disks that cannot be listed are reported as missing |
| Relocation.SendsWhen | helper/virtualmachine/virtualmachinerelocate/virtual_machine_relocate.go:55-95 | when a relocation is sent |
| Relocation.WhatIsMoved | helper/virtualmachine/virtualmachinerelocate/virtual_machine_relocate.go:156-236 | a disk goes where its last locator sends it, else to the common datastore, else nowhere; nothing else changes |
| NicKeys.RequestCards | vsphere/workerpool/virtual_machine_deployer.go:206-219 | one addition for each interface, linked to it by a fresh ID, with its network, adapter type and address |
| NicKeys.WriteBack | vsphere/workerpool/virtual_machine_deployer.go:228-250 | each interface holds the key of a card with its number, or 0 if there is none; panics without a number |
| NicKeys.FoundKeyIsNewCard | vsphere/workerpool/virtual_machine_deployer.go:228-250 | where the template had a card, the key found is that of the card made from the interface, on its network |
| NicKeys.OnlyNewCards | vsphere/workerpool/virtual_machine_deployer.go:200-220 | with all template cards removed, every card of the machine was made from an interface |
| Deployer.AllCardsNew | vsphere/workerpool/virtual_machine_deployer.go:227-291 | every interface has its own card on its network, the unit numbers increase with the position, and the machine has no other card |
| Deployer.VirtualMachineDeployer.SetTimeout | vsphere/workerpool/virtual_machine_deployer.go:361-377 | all three waits are the given ones or the configured defaults; a clone wait below one counts as not given |
| Deployer.VirtualMachineDeployer.SetDefault | vsphere/workerpool/virtual_machine_deployer.go:379-438 | an interface without adapter type gets the configured one and changes in nothing else |
| Deployer.VirtualMachineDeployer.RollBack | vsphere/workerpool/virtual_machine_deployer.go:440-455 | removes at most the new machine, and when; panics exactly when its power state cannot be read |
| Deployer.VirtualMachineDeployer.Deploy | vsphere/workerpool/virtual_machine_deployer.go:142-332 | for every outcome: which error or panic, one while waiting for the clone included, which machines are there afterwards, that no other machine is touched, that success leaves the new machine on with the hardware asked for and each interface holding its card's key; once past the guest settings, the hardware was sent and then, exactly if they are given for the family of the guest, the settings, one for each interface in order |
| Deployer.WhatGoesWrongFirst | vsphere/workerpool/virtual_machine_deployer.go:142-332 | the first thing that goes wrong decides the error, step by step, and a rollback that panics hides it |
| Deployer.LeavesWhen | vsphere/workerpool/virtual_machine_deployer.go:440-455 | a machine stays behind unless a failure of hardware, guest settings or a wait is followed by a destruction that takes effect |
| Deployer.KeysOfIs | vsphere/workerpool/virtual_machine_deployer.go:273-291 | one adapter setting for each interface, in order, with its key |
| Deployer.MachinesAreAccountedFor | vsphere/workerpool/virtual_machine_deployer.go:142-332 | over every run of deployments the number of machines grows by the deployments that leave one behind and by nothing else, and no earlier machine changes |
| BatchOperations.BatchHandler.Run | api/v1/virtual_machine_v1.go:213-237 | the reports are the IDs of the three verdicts in request order; the batch panics if and only if some item comes to a state that cannot be read, at the first such item, and nothing after it is looked at; machines and calls are those the items lead to one by one; only machines reached change, and those only towards the action's state; what is reported deleted is gone at the end, what is reported switched is in that state, and what is reported not found could not be looked up or was deleted by the batch, repeats included |
| BatchOperations.BatchHandler.One | api/v1/virtual_machine_v1.go:218-234 | not found exactly when the lookup fails; exactly when the action succeeds and when it panics; success means its state is reached; the machine afterwards, whatever the outcome |
| BatchOperations.BatchHandler.Act | api/v1/virtual_machine_v1.go:218-234 | the exact calls and the exact machine for each action: a start, a guest shutdown alone, the operator's way of stopping, or a deletion |
| BatchOperations.WorksWhen | api/v1/virtual_machine_v1.go:218-234 | when each action succeeds |
| BatchOperations.PanicsWhen | api/v1/virtual_machine_v1.go:218-234 | when each action panics |
| BatchOperations.Batch.EachOnItsOwn | api/v1/virtual_machine_v1.go:213-237 | in a batch without repeats each verdict, and whether an item panics, are as if it were the only item |
| BatchOperations.Batch.PanicsUnread | api/v1/virtual_machine_v1.go:494-518 | switching on and shutting down panic at an item, repeats or not, exactly when it is there, found and unreadable |
| BatchOperations.UnreadableEndsBatch | api/v1/virtual_machine_v1.go:494-518 | a batch that has switched one machine on and panics at the next |
| BatchOperations.MeansWhatItSays | api/v1/virtual_machine_v1.go:213-237 | after any number of items, repeats included, only listed machines have changed and every verdict so far is true of the machines |
| BatchOperations.ReportIsSubsequence | api/v1/virtual_machine_v1.go:494-518 | each report is a subsequence of the request, repeats included |
| BatchOperations.ReportsHold | api/v1/virtual_machine_v1.go:494-518 | each of the three lists holds exactly the IDs of its verdict |
| BatchOperations.ReportsPartition | api/v1/virtual_machine_v1.go:563-587 | every occurrence of an ID is in exactly one report |
| VCCache.Setup | vsphere/cache/vc_cache.go:19-32 | the ignored prefixes are exactly those configured, one for each item or one for the whole vCenter |
| VCCache.Cache.Get | vsphere/cache/vc_cache.go:34-40 | the stored entry, or nothing while caching is off |
| VCCache.Cache.Set | vsphere/cache/vc_cache.go:42-52 | stores unless off, ignored or already there |
| VCCache.Cache.Ignore | vsphere/cache/vc_cache.go:76-83 | true exactly for keys with a configured prefix |
| VCCache.Cache.CleanAll | vsphere/cache/vc_cache.go:54-61 | removes exactly the keys with the ID in front that are no refresh ticker's, in whatever order they are visited |
| VCCache.Cache.Clean | vsphere/cache/vc_cache.go:63-70 | removes exactly the named keys of the vCenter and keeps every other entry |
| VCCache.KeyInjective | vsphere/cache/vc_cache.go:72-74 | keys with colon-free kinds are equal only if vCenter and kind are |
| VCCache.CleanAllReach | vsphere/cache/vc_cache.go:54-61 | for any two IDs: cleaning the first removes an entry of the second exactly when the entry is no ticker and the first ID is a prefix of the second or goes on as its key does; without a colon in it exactly when it is a prefix |
| VCCache.CleanAllSparesOthers | vsphere/cache/vc_cache.go:54-61 | between different IDs of one length nothing of the other vCenter is touched |
| VCCache.CleanAllOverreaches | vsphere/cache/vc_cache.go:54-61 | two IDs where it takes the other's listing too; cleaning a vCenter with an empty ID removes everything but the tickers of all vCenters |
| VCCache.OSFamiliesAreNeverHit | vsphere/cache/os_family_cache.go:9-13 | storing guest families never changes what looking them up gives |
| Inventory.Client.GetDatacenters | vsphere/datacenter.go:41-58 | the cached datacenters or the current ones, which are then stored |
| Inventory.Client.QueryDatacenters | vsphere/datacenter.go:11-39 | the answer and the store afterwards as functions of what was cached |
| Inventory.Client.GetAll | vsphere/cluster.go:54-75 | the listing over the datacenters seen, leaving out unreadable ones, and the store afterwards |
| Inventory.Client.GetByIDs | vsphere/cluster.go:27-38 | one info for each ID that can be read, in request order; for resource pools nothing (vsphere/resource_pool.go:36-47) |
| Inventory.Client.GetByOwner | vsphere/host.go:57-68 | the objects of the cluster, and for resource pools also of the host (vsphere/resource_pool.go:62-83) |
| Inventory.Client.QueryFromCache | vsphere/host.go:134-167 | the cached objects the query asks for, in order |
| Inventory.Client.QueryObjects | vsphere/host.go:13-29 | the answer as a function of what the cache held, falling through to a direct query when that gives nothing, and the store afterwards |
| Inventory.Client.CreateCache | vsphere/vcenter.go:35-57 | cleaning and filling in the order of the source, or nothing while caching is off |
| Answers.DatacentersAnswered | vsphere/datacenter.go:11-82 | after any run a query by IDs answers, in inventory order, exactly the datacenters whose IDs are asked for, and one without IDs all of them |
| Answers.FilteredIs | vsphere/host.go:134-167 | of a cached listing exactly what is asked for is answered, in its order |
| Answers.ListedIs | vsphere/cluster.go:54-75 | a listing goes through the readable datacenters one by one, and in each through its objects, in inventory order |
| Answers.ByIDsIs | vsphere/cluster.go:27-38 | by ID the objects that exist are answered, in request order |
| Answers.WhatIsAnswered | vsphere/cluster.go:11-112 | after any run, with steps in between, exactly the objects asked for are answered: by ID, hosts by cluster, by datacenter, or all |
| Answers.WhatAQueryStores | vsphere/cluster.go:54-75 | a query for a whole listing that finds none stores it unless it is ignored, other queries store nothing, and no entry is replaced |
| Answers.KeyNames | vsphere/cache/vc_cache.go:72-74 | the keys the listings lie under |
| CacheRuns.FullHas | vsphere/cluster.go:54-75 | the full listing of a kind holds exactly the objects of that kind |
| CacheRuns.FilteredListed | vsphere/cluster.go:101-108 | filtering the full listing by a datacenter gives the sequence its container view gives |
| CacheRuns.SameSequence | vsphere/cluster.go:11-25 | whatever was cached, unfiltered and by datacenter the answer is the uncached sequence, for all five kinds |
| CacheRuns.SameIDs | vsphere/host.go:13-29 | by IDs, and hosts by cluster, the answer names the same objects as the uncached one |
| CacheRuns.PoolsByID | vsphere/resource_pool.go:36-47 | by ID, a cached listing answers as the uncached facade exactly when it holds none of the pools |
| CacheRuns.PoolsByOwner | vsphere/resource_pool.go:154-161 | by owner, it answers the same pools exactly when no other owner of that kind has pools, or both owners are given |
| CacheRuns.CompleteListing | vsphere/cluster.go:60-71 | a fill with unreadable datacenters is complete exactly when no object of the kind lies in one |
| CacheRuns.PartialFillSticks | vsphere/cluster.go:54-75 | after such a fill the listing asked for again is right exactly when none or all of the objects were missed |
| CacheRuns.SlotKeyInjective | vsphere/cache/resource_pool_cache.go:8-11 | no two vCenters and no two kinds share a key, twice prefixed or not, whatever the IDs |
| CacheRuns.NextKeepsConsistent | vsphere/cache/vc_cache.go:34-70 | every query, fill, clean, racing fill, single deletion or foreign write keeps each present listing complete, for all vCenters of the store |
| CacheRuns.RunKeepsConsistent | vsphere/cache/vc_cache.go:34-70 | so does every run |
| CacheRuns.CacheIsTransparent | vsphere/cluster.go:11-112 | after any run, with any steps between a query's two looks into the cache, it answers as without a cache: the same sequence unfiltered and by datacenter, the same IDs otherwise |
| CacheRuns.DatacentersAreTransparent | vsphere/datacenter.go:11-84 | datacenter queries answer the same sequence as without a cache, by IDs too |
| CacheRuns.IgnoredStaysAbsent | vsphere/cache/vc_cache.go:76-83 | a listing under an ignored prefix that is absent stays absent in every run |
| CacheRuns.RecreatedIsCurrent | vsphere/vcenter.go:46-57 | whatever was cached before, the datacenters and every kind, as far as they are not ignored, then hold the current listing |
| CacheRuns.RecreatedFromNothing | vsphere/vcenter.go:46-57 | without datacenters no listing is left |
| CacheRuns.CleanAllDropsPools | vsphere/workerpool/worker_pool.go:84-86 | cleaning a vCenter drops its worker pools and keeps its refresh ticker |
| CacheRuns.CleanMissesPools | vsphere/cache/vc_cache.go:63-70 | cleaning resource pools by their name leaves their listing there |
| CacheRuns.IgnoringPoolsByName | vsphere/cache/vc_cache.go:19-32 | ignoring them by name works exactly for a vCenter whose ID starts with that name |
| TaskLifecycle.RecordsAreAccountedFor | api/v1/virtual_machine_v1.go:213-245 | over every run of steps and crashes a stored record is gone only after a callback was attempted, the submission refused, the body panicked, or a handler that shares its error variable cancelled it |
| TaskLifecycle.CalledBackOrRefused | vsphere/workerpool/taskreceiver/task_receiver.go:12-28 | without a panic, and for handlers with a variable of their own, only after a callback was attempted or the submission refused |
| TaskLifecycle.BodyRunsAtMostOnce | vsphere/workerpool/worker_pool.go:36-43 | a request's body starts at most once over the whole history, restarts included |
| TaskLifecycle.CompletePassReportsAll | startup/startup.go:18-45 | a completed recovery pass has reported every record of its snapshot; a record that does not parse is never reported |
| TaskLifecycle.CompletePassReportsOnce | startup/startup.go:18-45 | in every run, with the server and its tasks going on beside it, a completed pass adds exactly one failure callback for each record stored when it began and none for any other request |
| TaskLifecycle.CompletePassRemovesAll | startup/startup.go:18-45 | in every such run whose deletions work, none of the records of its snapshot is stored after it |
| TaskLifecycle.PassDeletesItsOwn | startup/startup.go:18-45 | each deletion of a pass is of a record of its snapshot and touches no other |
| TaskLifecycle.MostCalls | startup/startup.go:18-45 | after any run, the callbacks a request can come to without another snapshot are exactly those made and those pending, of its task and of the pass under way: no continuation makes more and one makes as many |
| TaskLifecycle.CalledAgain | startup/startup.go:18-45 | after any run, some continuation calls a request back once more if and only if its record is held for recovery or a callback is pending |
| TaskLifecycle.SafeRunCallsOnce | startup/startup.go:18-45 | as long as no snapshot finds a record whose request has been called back or whose task may yet do so, no request is called back twice, with any crashes and failing deletions |
| TaskLifecycle.UnsafeCallsTwice | startup/startup.go:18-45 | after a run that was safe so far, two callbacks can follow a snapshot without another if and only if it is unsafe in that sense |
| TaskLifecycle.AtMostOneCallback | startup/startup.go:18-45 | so if the snapshot precedes the first request of the process, no process ends between a callback and its deletion, and deletions work, no request is called back twice |
| TaskLifecycle.CalledBackTwice | main.go:42-43 | a run where recovery races with the server and a request is called back twice |
| TaskLifecycle.CalledBackAgainAfterCrash | api/v1/virtual_machine_v1.go:213-237 | a run where a crash after the callback makes the next process report the request again |
| TaskLifecycle.ReportedTwice | startup/startup.go:18-45 | a run where the process ends between a callback of recovery and its deletion, and the next one reports the failure again |
| TaskLifecycle.DeniedWhileRunning | api/v1/virtual_machine_v1.go:288-317 | a run where the shared variable makes the handler cancel a running request, which then is never called back |
| TaskLifecycle.PanicIsSilent | api/v1/virtual_machine_v1.go:213-215 | a run where a panic deletes the record without a callback |
| TaskLifecycle.PanicOnSendingIsSilent | api/v1/virtual_machine_v1.go:213-237 | the same for a panic on sending the result |
| TaskLifecycle.CalledBackAndDone | api/v1/virtual_machine_v1.go:213-237 | a run where a request is called back with its result and its record deleted |
| TaskLifecycle.RefusedAndCancelled | api/v1/virtual_machine_v1.go:239-245 | a run where a refused request loses its record without a callback |
| TaskLifecycle.PassCompletes | startup/startup.go:18-45 | a run where recovery reports a record, deletes it and is complete |
| TaskLifecycle.UnparsedStops | startup/startup.go:18-45 | a run where a record that does not parse stops recovery |
| RunsInSteps.HistoryIs | api/v1/virtual_machine_v1.go:213-245 | over every run: starts, panics, callbacks and refusals are counted exactly as often as their steps were taken |
| RunsInSteps.UpWhen | main.go:42-43 | the process is up exactly if it was started and has neither crashed nor ended by a panic of recovery since |
| RunsInSteps.LiveWhen | vsphere/workerpool/worker_pool.go:36-43 | a request is live exactly if the process that is up has received it |
| RunsInSteps.StoredWhen | vsphere/workerpool/taskreceiver/task_receiver.go:12-28 | a record is stored exactly if the request was received and stored and no deletion of it came after, one by recovery being that of the request it called back last |
| RunsInSteps.FailedWhen | api/v1/virtual_machine_v1.go:288-317 | the shared variable holds an error exactly if the body has ended with one that the result of the submission has not overwritten since |
| RunsInSteps.DeniedWhen | api/v1/virtual_machine_v1.go:288-317 | a handler takes an accepted request for refused exactly if it shares the variable and checks it at such a moment |
| RunsInSteps.ComesAfter | api/v1/virtual_machine_v1.go:213-245 | in every run receipt, submission, both pools, start, end of the body, callback and deletion come in this order |
| Startup.TaskReceiver.Receive | vsphere/workerpool/taskreceiver/task_receiver.go:12-18 | the record is stored under its ID, unless the store fails, which is ignored |
| Startup.TaskReceiver.Done | vsphere/workerpool/taskreceiver/task_receiver.go:20-23 | the record is deleted and nothing else, unless the store fails, which is ignored |
| Startup.TaskReceiver.CallbackErr | vsphere/callback/callback.go:58-77 | sends to the request's address or the default one; panics exactly when the default section is missing, even with an address in the request, or when neither names one |
| Startup.TaskReceiver.ReportRecord | startup/startup.go:20-43 | what becomes of one record: it stops the pass, ends the process, is reported and removed, or is reported and stays because the process ends in between |
| Startup.TaskReceiver.InterruptTaskCallback | startup/startup.go:18-45 | one failure callback, to the right address, for exactly the records removed and for the one whose deletion the end of the process prevents; a whole pass removes all records if and only if all are recoverable, and if not it ends at a record that cannot be sent, with a panic, or at one that does not parse, without; if all parse it panics if and only if not all are recoverable; a pass ended early has handled exactly as many as its steps allow |
| Startup.TaskReceiver.RecoverAfterInterruptions | startup/startup.go:18-45 | over any number of processes that end early, at any point, and one that does not: no record is left, and the calls are one for each record and one more for each process that ended between a call and its deletion; how many did |
| Startup.AtLeastOnceExactlyOnce | startup/startup.go:18-45 | then every record was reported at least once, and each exactly once if and only if no process ended in between |
| Startup.OneInterruption | startup/startup.go:18-45 | for a single early end that is when it comes after an odd number of calls and deletions with records left |
| Startup.Recoverability | vsphere/callback/callback.go:58-64 | all records can be reported if and only if there is none, or the default section exists (config/config.go:51) and each record parses and has an address of its own or the default one |
| Startup.SectionMissing | vsphere/callback/callback.go:58-60 | a record that names its own address and cannot be reported, for want of the default section alone |
| Startup.ReachesTheSameAddress | api/v1/virtual_machine_v1.go:73-92 | recovery reaches the address of the live callback exactly when that one reaches any, and the request keeps it under the name recovery reads, names none, or names the default one |
| Startup.WhatIsRead | startup/startup.go:20-41 | a record can be read if it is an object whose field `callback`, if there, is a callback; no other spelling is looked at |
| Startup.OtherSpelling | api/v1/virtual_machine_v1.go:73-92 | a request that keeps its callback under `callBack` is reported to the default address or to nobody |
| Startup.WhereCallsGo | vsphere/callback/callback.go:58-64 | every call of a pass is about a stored record and goes to the address in its field `callback`, or else to the default one |
| Startup.CalledIs | startup/startup.go:18-45 | calls are counted by request, each once |
| AesText.EncryptBlocks | app/utils/aes.go:26-30 | the buffer is filled block by block with the chained encryption |
| AesText.DecryptBlocks | app/utils/aes.go:55-58 | and with the chained decryption |
| AesText.AesEncrypt | app/utils/aes.go:16-33 | padding, chaining and base64 in that order |
| AesText.AesDecrypt | app/utils/aes.go:35-62 | short or ragged sources give the empty string, bad padding lengths panic |
| AesText.XorIs | app/utils/aes.go:26-30 | a bit of the exclusive or is set exactly where the two bits differ |
| AesText.XorBlocksIs | app/utils/aes.go:26-30 | and so for every byte of a block |
| AesText.WhatIsEncrypted | app/utils/aes.go:16-33 | the text is the base64 of the padded string's blocks, each enciphered after mixing with the cipher block before it, the first with the key |
| AesText.WhatIsDecrypted | app/utils/aes.go:35-62 | whole blocks are decrypted to what chains to them, cut by the number in the last byte; other sources to the empty string |
| AesText.AlphabetIs | app/utils/aes.go:32 | the alphabet of section 4 of RFC 4648 |
| AesText.GroupIs | app/utils/aes.go:32 | three bytes are four symbols of six bits, highest first |
| AesText.TailIs | app/utils/aes.go:32 | one or two bytes left over are filled up with zero bits and padding |
| AesText.KeyIs | app/utils/aes.go:13 | the key, in characters |
| AesText.PaddingRoundTrip | app/utils/aes.go:64-74 | padded text is well padded and unpadding gives it back |
| AesText.UnPaddingRoundTrip | app/utils/aes.go:70-74 | padding again gives the unpadded block back exactly when it was well padded |
| AesText.ChainingRoundTrip | app/utils/aes.go:26-30 | decrypting chained blocks gives them back |
| AesText.Base64RoundTrip | app/utils/aes.go:32-42 | decoding an encoded byte string gives it back |
| AesText.EncryptionRoundTrip | app/utils/aes.go:16-62 | decrypting an encrypted string gives back the string, for every byte string and every block permutation |
| AesText.EncryptionIsInjective | app/utils/aes.go:16-33 | different strings are encrypted differently |
| AesText.ReEncryption | app/utils/aes.go:35-74 | what whole blocks decrypt to encrypts to the same text exactly when the decrypted padding was in order |
| Cidr.DottedMaskValue | helper/virtualmachine/virtualmachinecustomize/virtual_machine_customize.go:223-230 | for prefix lengths 0 to 32 the mask is 2^32 - 2^(32-m), for all others it panics |
| Cidr.GatewayInSameBlock | helper/virtualmachine/virtualmachinecustomize/virtual_machine_customize.go:232-245 | the gateway matches exactly when it lies in the address's block of 2^(32-m) addresses, and always if there is no prefix length m |
| Cidr.ValueIs | helper/virtualmachine/virtualmachinecustomize/virtual_machine_customize.go:232-245 | the number an address stands for |
| Cidr.BlocksNest | helper/virtualmachine/virtualmachinecustomize/virtual_machine_customize.go:232-245 | blocks get coarser as the prefix gets shorter |
| ParentPath.PathIsChain | helper/vsphere/vsphere.go:64-79 | on every acyclic tree the path is the chain of parents up to the first of the type or up to the root |
| ParentPath.PathIsUnique | helper/vsphere/vsphere.go:64-79 | there is only one such path |
| ParentPath.NearestIsLast | helper/vsphere/vsphere.go:51-62 | the nearest ancestor of the type is the path's last element if that has the type, and else there is none |
| ParentPath.GetLocationInfo | helper/virtualmachine/virtual_machine.go:469-476 | the datacenter and folder taken from the path |
| ParentPath.FolderBelowRootFolder | helper/virtualmachine/virtual_machine.go:469-476 | for every machine: a folder is set exactly when its parent and grandparent are no datacenters and there is one more above; for a machine in a datacenter exactly when it lies deeper than the root folder |
| ParentPath.DatacenterOrRoot | helper/virtualmachine/virtual_machine.go:469-473 | the datacenter named is the machine's own exactly when it has one, and else its topmost ancestor |

## Left out

- Reconfiguration.AddDisk: assumes that `AssignController` leaves the unit number alone (its body is not part of the repository), and that vCenter keeps unit numbers and picks keys that are not in use.
- Reconfiguration.EditNic: the six adapter types of the source are one generic card, as their cases do the same; cards of other types, which the source silently leaves alone, are not modelled.
- Reconfiguration.AddNic: bandwidth allocation and its nil dereference, and errors on reading a network's backing.
- Relocation.ParseStorage: storage policies and disk formats.
- UnitNumbers.GenerateUnitNum: device lists of 2^31 - 9 entries and more, where 32-bit numbers would wrap.
- Operator.VirtualMachineOperator.Reconfigure: reservations, limits and shares are not part of the hardware, so the memory allocation written to the CPU allocation (helper/virtualmachine/virtualmachinereconfig/virtual_machine_reconfig.go:299) does not show.
- Deployer.VirtualMachineDeployer.SetDefault: the logging flag and the defaults of disks.
- Deployer.VirtualMachineDeployer.Deploy: the contents of adapter settings (apart from `Cidr`) and panics on making them, the clone's own parameters, system-disk defaults, data disks (never added by a deployment) and the parameters overwritten at virtual_machine_deployer.go:379-438 that no later step reads.
- Inventory.Client.CreateCache: folders, storage policies, guest families and the refresh ticker are not filled; writes under their keys are steps of `CacheRuns`.
- Inventory.Client.GetByIDs: a failing read of a single resource pool, which panics in the source.
- Inventory.Client.QueryObjects: attributes of objects are one value, and a failing read of a single resource pool, which panics in the source, is not modelled.
- TaskLifecycle.RecordsAreAccountedFor: request IDs are fresh by assumption (random UUIDs); what the bodies do is in the other modules.
- Startup.TaskReceiver.InterruptTaskCallback: deletions from the store succeed here, and the server is not beside it; `TaskLifecycle` has both.
- TaskLifecycle.CompletePassRemovesAll: failing deletions, after which a record stays and a later pass reports it again.
- AesText.AesDecrypt: of a text that is not canonical base64 the decoder's partial output is a parameter, and line breaks inside a text count as malformed.
- Cidr.GatewayInSameBlock: parsing of address text and IPv6.
- Disk attributes in place, aliasing and order are modelled on an array of device values; other library structures of govmomi are plain values.
- Relocation to another host or pool and of networks, storage profiles, snapshots, HTTP handling, tokens, logging, configuration loading and disk format tables.
- Real time: every wait is an outcome. Folder queries by datacenter, whose cached form reads another set of folders than the direct one.
- Worker pool sizes, and two callers that install a pool at once.
