/** Reconfiguring a machine: look it up, compile the request, submit it
    (helper/virtualmachine/virtualmachinereconfig/virtual_machine_reconfig.go:132-184). */
module Reconfigurer {
  import opened Wrappers
  import opened Devices
  import opened UnitNumbers
  import opened Reconfiguration
  import opened ReconfigurationMeaning
  import opened PlainTerms
  import opened VSphere

  /** vCenter's part in a reconfiguration: whether the machine and its device list can be read, the
      order of that list, the outcome of the task, and the choices for new devices. */
  datatype ReconfigureOutcome = ReconfigureOutcome(
    found: bool, listing: Option<seq<Device>>, task: Outcome, landings: seq<Landing>)

  /** What vCenter reports is true, and it chooses keys that are new. */
  ghost predicate Truthful(m: DeviceMap, o: ReconfigureOutcome, additions: nat) {
    && ValidMap(m)
    && (o.listing.Some? ==> Lists(m, o.listing.value))
    && FreshLandings(m, o.landings) && |o.landings| >= additions
  }

  function Additions(disk: Option<DiskParameter>, nic: Option<NicParameter>): nat {
    (if disk.Some? then disk.value.add.Length else 0) + (if nic.Some? then nic.value.add.Length else 0)
  }

  method BuildDeviceChange(api: Api, disk: Option<DiskParameter>, nic: Option<NicParameter>, listing: seq<Device>)
    returns (fault: Fault, changes: seq<Change>)
    requires AllValid(listing) && DistinctKeys(listing)
    requires |listing| + Additions(disk, nic) + 9 <= MAX_INT32
    modifies (if disk.Some? then {disk.value.add} else {}), (if nic.Some? then {nic.value.add} else {})
    ensures var c := Compile(api, listing, old(DiskValues(disk)), old(NicValues(nic)));
      && fault == c.fault
      && (fault.NoFault? ==> Within(c.entries, |c.devices|) && changes == Payload(c.devices, c.entries))
    ensures fault.NoFault? && disk.Some? ==>
      disk.value.add[..] == NumberDisks(old(disk.value.add[..]), FreshUnits(listing, "disk", disk.value.add.Length))
    ensures nic.Some? && !HasCard(listing) ==> nic.value.add[..] == old(nic.value.add[..])
    ensures fault.NoFault? && nic.Some? && HasCard(listing) ==>
      nic.value.add[..] == NumberNics(old(nic.value.add[..]), FreshUnits(listing, "nic", nic.value.add.Length))
  {
    changes := [];
    var devices := new Device[|listing|](i requires 0 <= i < |listing| => listing[i]);
    assert devices[..] == listing;
    ghost var diskRequest, nicRequest := DiskValues(disk), NicValues(nic);
    var change: seq<Entry>;
    fault, change := ParseReconfigureDisk(api, disk, devices, []);
    if !fault.NoFault? {
      return;
    }
    assert NicValues(nic) == nicRequest;
    ghost var e1 := change;
    assert e1 == CompileDisk(api, listing, diskRequest).entries;
    DiskShape(api, listing, diskRequest);
    ghost var first := devices[..];
    SameKindsHasCard(first, listing);
    if disk.Some? {
      SameUnits(first, listing, "disk", disk.value.add.Length);
    }
    fault, change := ParseReconfigureNic(api, nic, devices, change);
    if !fault.NoFault? {
      return;
    }
    ghost var c := Compile(api, listing, diskRequest, nicRequest);
    CompileShape(api, listing, diskRequest, nicRequest);
    assert change == c.entries && devices[..] == c.devices;
    if nic.Some? {
      SameUnits(devices[..], listing, "nic", nic.value.add.Length);
    }
    changes := Payload(devices[..], change);
  }

  /** The device list `after` is what the request describes, with vCenter's choices for the new
      devices taken in order. */
  ghost predicate Reconfigured(api: Api, m: DeviceMap, o: ReconfigureOutcome,
    disk: Option<DiskRequest>, nic: Option<NicRequest>, after: DeviceMap)
    requires ValidMap(m)
  {
    && o.listing.Some?
    && (nic.Some? && HasCard(o.listing.value) ==> CardsPossible(nic.value.add, api))
    && |NewDevices(api, o.listing.value, disk, nic)| <= |o.landings|
    && Described(api, m, o.listing.value, disk, nic,
         o.landings[..|NewDevices(api, o.listing.value, disk, nic)|], after)
  }

  /** How the compiler ends on the listed devices. */
  function CompileFault(api: Api, o: ReconfigureOutcome, disk: Option<DiskRequest>, nic: Option<NicRequest>): Fault
    requires o.listing.Some? ==> AllValid(o.listing.value)
  {
    if !o.found || o.listing.None? then Failed else Compile(api, o.listing.value, disk, nic).fault
  }

  /** A request gets to vCenter exactly when the machine and its devices can be read, disks to add find a controller
      and have a known format, and, on a machine with a card, the edits name its cards and what is named exists. */
  lemma SubmittedWhen(api: Api, m: DeviceMap, o: ReconfigureOutcome, disk: Option<DiskRequest>,
    nic: Option<NicRequest>)
    requires Truthful(m, o, 0) && (o.listing.Some? ==> AllValid(o.listing.value))
    ensures CompileFault(api, o, disk, nic).Panicked? <==>
      && o.found && o.listing.Some?
      && disk.Some? && disk.value.add != [] && ControllerThere(m) && !FormatsKnown(disk.value.add)
    ensures CompileFault(api, o, disk, nic).NoFault? <==>
      && o.found && o.listing.Some?
      && (disk.Some? && disk.value.add != [] ==> ControllerThere(m) && FormatsKnown(disk.value.add))
      && (nic.Some? && CardThere(m) ==> CardsInOrder(api, m, nic.value))
  {
    if o.listing.Some? {
      EndsWhen(api, m, o.listing.value, disk, nic);
    }
  }

  /** The request reaches vCenter and takes effect there, whatever is reported. */
  ghost predicate Taken(api: Api, m: DeviceMap, o: ReconfigureOutcome, disk: Option<DiskRequest>,
    nic: Option<NicRequest>)
    requires o.listing.Some? ==> AllValid(o.listing.value)
  {
    CompileFault(api, o, disk, nic).NoFault? && NothingBothRemovedAndTouched(m, disk, nic) && !o.task.Refused?
  }

  method Reconfigure(vc: VCenter, api: Api, id: string, spec: HardwareSpec,
    disk: Option<DiskParameter>, nic: Option<NicParameter>, o: ReconfigureOutcome)
    returns (fault: Fault)
    requires id in vc.vms && Truthful(vc.vms[id].devices, o, Additions(disk, nic))
    requires o.listing.Some? ==> AllValid(o.listing.value) && |o.listing.value| + Additions(disk, nic) + 9 <= MAX_INT32
    modifies vc, (if disk.Some? then {disk.value.add} else {}), (if nic.Some? then {nic.value.add} else {})
    ensures vc.vms.Keys == old(vc.vms).Keys
    ensures forall k :: k in old(vc.vms) && k != id ==> vc.vms[k] == old(vc.vms)[k]
    ensures vc.vms[id].power == old(vc.vms[id].power)
    ensures fault.NoFault? <==>
      && CompileFault(api, o, old(DiskValues(disk)), old(NicValues(nic))).NoFault?
      && NothingBothRemovedAndTouched(old(vc.vms[id].devices), old(DiskValues(disk)), old(NicValues(nic)))
      && o.task.Done?
    ensures fault.Panicked? <==> CompileFault(api, o, old(DiskValues(disk)), old(NicValues(nic))).Panicked?
    ensures
      if Taken(api, old(vc.vms[id].devices), o, old(DiskValues(disk)), old(NicValues(nic))) then
        && Reconfigured(api, old(vc.vms[id].devices), o, old(DiskValues(disk)), old(NicValues(nic)), vc.vms[id].devices)
        && vc.vms[id].hardware == ChangedHardware(old(vc.vms[id].hardware), spec)
      else vc.vms == old(vc.vms)
    ensures forall k :: k in old(vc.vms[id].devices) && k !in vc.vms[id].devices ==>
      || (disk.Some? && k in disk.value.remove && old(vc.vms[id].devices)[k].kind.Disk?
          && old(vc.vms[id].devices)[k].unit != Some(0))
      || (nic.Some? && k in nic.value.remove && old(vc.vms[id].devices)[k].kind.Card?)
    ensures fault.NoFault? ==> forall k :: k in old(vc.vms[id].devices) && k in vc.vms[id].devices ==>
      && !(disk.Some? && k in disk.value.remove && old(vc.vms[id].devices)[k].kind.Disk?
           && old(vc.vms[id].devices)[k].unit != Some(0))
      && !(nic.Some? && k in nic.value.remove && old(vc.vms[id].devices)[k].kind.Card?)
    ensures fault.NoFault? && disk.Some? ==>
      disk.value.add[..] ==
        NumberDisks(old(disk.value.add[..]), FreshUnits(o.listing.value, "disk", disk.value.add.Length))
    ensures fault.NoFault? && nic.Some? ==>
      nic.value.add[..] ==
        if HasCard(o.listing.value)
        then NumberNics(old(nic.value.add[..]), FreshUnits(o.listing.value, "nic", nic.value.add.Length))
        else old(nic.value.add[..])
    ensures vc.calls ==
      if CompileFault(api, o, old(DiskValues(disk)), old(NicValues(nic))).NoFault?
      then old(vc.calls) + [Submit(id, old(vc.vms[id].power), spec)] else old(vc.calls)
  {
    if !o.found || o.listing.None? {
      return Failed;
    }
    ghost var m, listing := vc.vms[id].devices, o.listing.value;
    ghost var diskRequest, nicRequest := DiskValues(disk), NicValues(nic);
    ListedKeys(m, listing);
    var changes: seq<Change>;
    fault, changes := BuildDeviceChange(api, disk, nic, o.listing.value);
    if !fault.NoFault? {
      return;
    }
    WhatIsSubmitted(api, m, o, diskRequest, nicRequest, changes);
    var landings := o.landings[..|AddedDevices(changes)|];
    var ok := vc.Reconfigure(id, spec, changes, landings, o.task);
    fault := if ok then NoFault else Failed;
    if Taken(api, m, o, diskRequest, nicRequest) {
      WhatIsGoneAfter(api, m, o, diskRequest, nicRequest, vc.vms[id].devices);
    }
  }

  lemma WhatIsGoneAfter(api: Api, m: DeviceMap, o: ReconfigureOutcome, disk: Option<DiskRequest>,
    nic: Option<NicRequest>, after: DeviceMap)
    requires ValidMap(m) && FreshLandings(m, o.landings) && Reconfigured(api, m, o, disk, nic, after)
    ensures forall k :: k in m ==>
      (k !in after <==>
         || (disk.Some? && k in disk.value.remove && m[k].kind.Disk? && m[k].unit != Some(0))
         || (nic.Some? && k in nic.value.remove && m[k].kind.Card?))
  {
    var n := |NewDevices(api, o.listing.value, disk, nic)|;
    FreshPrefix(m, o.landings, n);
    forall k | k in m
      ensures k !in after <==>
        || (disk.Some? && k in disk.value.remove && m[k].kind.Disk? && m[k].unit != Some(0))
        || (nic.Some? && k in nic.value.remove && m[k].kind.Card?)
    {
      WhatIsGone(api, m, o.listing.value, disk, nic, o.landings[..n], after, k);
    }
  }

  /** What applying the compiled list means, for the landings vCenter has ready. */
  lemma {:induction false} WhatIsSubmitted(api: Api, m: DeviceMap, o: ReconfigureOutcome,
    disk: Option<DiskRequest>, nic: Option<NicRequest>, changes: seq<Change>)
    requires Truthful(m, o, 0) && o.listing.Some? && AllValid(o.listing.value)
    requires var c := Compile(api, o.listing.value, disk, nic);
      c.fault.NoFault? && Within(c.entries, |c.devices|) && changes == Payload(c.devices, c.entries)
    requires |NewDevices(api, o.listing.value, disk, nic)| <= |o.landings|
    ensures |AddedDevices(changes)| == |NewDevices(api, o.listing.value, disk, nic)|
    ensures var applied := Apply(m, changes, o.landings[..|AddedDevices(changes)|]);
      && (applied.Some? <==> NothingBothRemovedAndTouched(m, disk, nic))
      && (applied.Some? ==> Reconfigured(api, m, o, disk, nic, applied.value))
  {
    var listing := o.listing.value;
    ListedKeys(m, listing);
    CompileShape(api, listing, disk, nic);
    var n := |NewDevices(api, listing, disk, nic)|;
    FreshPrefix(m, o.landings, n);
    AppliesAsDescribed(api, m, listing, disk, nic, o.landings[..n]);
  }

  lemma FreshPrefix(m: DeviceMap, landings: seq<Landing>, n: nat)
    requires FreshLandings(m, landings) && n <= |landings|
    ensures FreshLandings(m, landings[..n])
  {
  }

  // ----- Finding a new device by its unit number -----

  /** A map from unit number to device, filled in list order. */
  method BuildUnitMap(devices: seq<Device>, kind: DeviceKind) returns (byUnit: map<int, Device>)
    ensures forall u :: u in byUnit ==> byUnit[u] in devices && byUnit[u].kind == kind && byUnit[u].unit == Some(u)
    ensures forall d :: d in devices && d.kind == kind && d.unit.Some? ==> d.unit.value in byUnit
  {
    byUnit := map[];
    for i := 0 to |devices|
      invariant forall u :: u in byUnit ==> byUnit[u] in devices && byUnit[u].kind == kind && byUnit[u].unit == Some(u)
      invariant forall j :: 0 <= j < i && devices[j].kind == kind && devices[j].unit.Some? ==>
        devices[j].unit.value in byUnit
    {
      var d := devices[i];
      if d.kind == kind && d.unit.Some? {
        byUnit := byUnit[d.unit.value := d];
      }
    }
  }

  /** Where the i-th new device is after a request. */
  lemma NewDeviceLands(api: Api, m: DeviceMap, o: ReconfigureOutcome,
    disk: Option<DiskRequest>, nic: Option<NicRequest>, after: DeviceMap, i: nat)
    requires ValidMap(m) && Reconfigured(api, m, o, disk, nic, after)
    requires i < |NewDevices(api, o.listing.value, disk, nic)|
    ensures o.landings[i].key in after
    ensures after[o.landings[i].key] == Land(NewDevices(api, o.listing.value, disk, nic)[i], o.landings[i])
  {
    var landings := o.landings[..|NewDevices(api, o.listing.value, disk, nic)|];
    assert landings[i] == o.landings[i];
    assert landings[i].key in LandedKeys(landings);
  }

  /** Where a device that is there after a request comes from. */
  lemma Origin(api: Api, m: DeviceMap, o: ReconfigureOutcome,
    disk: Option<DiskRequest>, nic: Option<NicRequest>, after: DeviceMap, k: int)
    requires ValidMap(m) && Reconfigured(api, m, o, disk, nic, after) && k in after
    ensures var news := NewDevices(api, o.listing.value, disk, nic);
      || (k in m && after[k] == Edited(api, disk, nic, m[k]))
      || (exists j :: 0 <= j < |news| && o.landings[j].key == k && after[k] == Land(news[j], o.landings[j]))
  {
    var news := NewDevices(api, o.listing.value, disk, nic);
    var landings := o.landings[..|news|];
    if k !in m {
      assert k in LandedKeys(landings);
      var j :| 0 <= j < |landings| && landings[j].key == k;
      assert landings[j] == o.landings[j];
    }
  }

  /** After a request, the device of its kind with the number of the i-th new device is that device,
      even where old devices share numbers with each other. */
  lemma NewDeviceByUnit(api: Api, m: DeviceMap, o: ReconfigureOutcome,
    disk: Option<DiskRequest>, nic: Option<NicRequest>, after: DeviceMap, i: nat, k: int)
    requires Truthful(m, o, 0) && Reconfigured(api, m, o, disk, nic, after)
    requires i < |NewDevices(api, o.listing.value, disk, nic)| && k in after
    requires var d := NewDevices(api, o.listing.value, disk, nic)[i];
      after[k].kind == d.kind && after[k].unit == d.unit
    ensures k == o.landings[i].key
  {
    var news := NewDevices(api, o.listing.value, disk, nic);
    if k in m {
      OldUnitsDiffer(api, m, o, disk, nic, after, i, k);
    } else {
      Origin(api, m, o, disk, nic, after, k);
      var j :| 0 <= j < |news| && o.landings[j].key == k && after[k] == Land(news[j], o.landings[j]);
      NewUnitsDiffer(api, o.listing.value, disk, nic, i, j);
    }
  }

  lemma NewUnitsDiffer(api: Api, devices: seq<Device>, disk: Option<DiskRequest>,
    nic: Option<NicRequest>, i: nat, j: nat)
    requires nic.Some? && HasCard(devices) ==> CardsPossible(nic.value.add, api)
    requires i < |NewDevices(api, devices, disk, nic)| && j < |NewDevices(api, devices, disk, nic)|
    requires var news := NewDevices(api, devices, disk, nic);
             news[i].kind == news[j].kind && news[i].unit == news[j].unit
    ensures i == j
  {
    NewUnits(api, devices, disk, nic);
  }

  lemma OldUnitsDiffer(api: Api, m: DeviceMap, o: ReconfigureOutcome,
    disk: Option<DiskRequest>, nic: Option<NicRequest>, after: DeviceMap, i: nat, k: int)
    requires Truthful(m, o, 0) && Reconfigured(api, m, o, disk, nic, after)
    requires i < |NewDevices(api, o.listing.value, disk, nic)| && k in m && k in after
    ensures after[k].unit != NewDevices(api, o.listing.value, disk, nic)[i].unit
  {
    NewUnits(api, o.listing.value, disk, nic);
    EditedKeepsIdentity(api, disk, nic, m[k]);
    assert m[k] in o.listing.value;
  }

  /** Every device after a request is valid and filed under its key. */
  lemma StaysValid(api: Api, m: DeviceMap, o: ReconfigureOutcome, disk: Option<DiskRequest>,
    nic: Option<NicRequest>, after: DeviceMap)
    requires ValidMap(m) && Reconfigured(api, m, o, disk, nic, after)
    ensures ValidMap(after)
  {
    forall k | k in after ensures after[k].key == k && ValidDevice(after[k]) {
      Origin(api, m, o, disk, nic, after, k);
      if k in m && after[k] == Edited(api, disk, nic, m[k]) {
        EditedKeepsIdentity(api, disk, nic, m[k]);
      }
    }
  }
}
