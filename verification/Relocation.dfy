/** The storage half of a relocation request
    (helper/virtualmachine/virtualmachinerelocate/virtual_machine_relocate.go:55-95, 156-236). */
module Relocation {
  import opened Wrappers
  import opened Devices
  import opened Reconfiguration
  import opened VSphere

  datatype DiskStorageParameter = DiskStorageParameter(key: int, datastoreID: Option<string>)
  datatype StorageParameter = StorageParameter(datastoreID: Option<string>, disks: seq<DiskStorageParameter>)

  /** How the check of one disk ends.  The message for an unknown datastore dereferences the common
      datastore, which is nil when only disks are named (virtual_machine_relocate.go:200-203). */
  function DiskFault(m: DeviceMap, d: DiskStorageParameter, common: Option<string>, datastores: set<string>): Fault {
    if d.key !in m || !m[d.key].kind.Disk? then Failed
    else if d.datastoreID.Some? && d.datastoreID.value !in datastores then
      if common.None? then Panicked else Failed
    else NoFault
  }

  function DisksFault(m: DeviceMap, disks: seq<DiskStorageParameter>, common: Option<string>,
    datastores: set<string>): Fault {
    if disks == [] then NoFault else
    var n := |disks| - 1;
    var before := DisksFault(m, disks[..n], common, datastores);
    if before.NoFault? then DiskFault(m, disks[n], common, datastores) else before
  }

  /** The disks that name a datastore, with it. */
  function Locators(disks: seq<DiskStorageParameter>): seq<DiskLocator> {
    if disks == [] then [] else
    var n := |disks| - 1;
    if disks[n].datastoreID.None? then Locators(disks[..n])
    else Locators(disks[..n]) + [DiskLocator(disks[n].key, disks[n].datastoreID.value)]
  }

  function StorageFault(m: DeviceMap, p: StorageParameter, datastores: set<string>): Fault {
    if p.datastoreID.Some? && p.datastoreID.value !in datastores then Failed
    else DisksFault(m, p.disks, p.datastoreID, datastores)
  }

  method ParseStorage(p: StorageParameter, ghost m: DeviceMap, devices: seq<Device>, datastores: set<string>)
    returns (fault: Fault, spec: RelocateSpec, hasChange: bool)
    requires ValidMap(m) && Lists(m, devices)
    ensures fault == StorageFault(m, p, datastores)
    ensures fault.NoFault? ==> spec == RelocateSpec(p.datastoreID, Locators(p.disks))
    ensures fault.NoFault? ==> (hasChange <==> p.datastoreID.Some? || Locators(p.disks) != [])
  {
    fault, spec, hasChange := NoFault, RelocateSpec(None, []), false;
    if p.datastoreID.Some? {
      if p.datastoreID.value !in datastores {
        return Failed, spec, false;
      }
      spec := spec.(datastore := p.datastoreID);
      hasChange := true;
    }
    var diskLocators: seq<DiskLocator>;
    fault, diskLocators := CheckDisks(p, m, devices, datastores);
    if |diskLocators| > 0 {
      hasChange := true;
    }
    spec := spec.(disks := diskLocators);
  }

  method CheckDisks(p: StorageParameter, ghost m: DeviceMap, devices: seq<Device>, datastores: set<string>)
    returns (fault: Fault, diskLocators: seq<DiskLocator>)
    requires ValidMap(m) && Lists(m, devices)
    ensures fault == DisksFault(m, p.disks, p.datastoreID, datastores)
    ensures fault.NoFault? ==> diskLocators == Locators(p.disks)
  {
    var list := new Device[|devices|](i requires 0 <= i < |devices| => devices[i]);
    assert list[..] == devices;
    var diskMap := BuildKeyMap(list, Disk);
    DiskMapIsListing(m, devices);
    fault, diskLocators := NoFault, [];
    var j := 0;
    while j < |p.disks| && fault.NoFault?
      invariant 0 <= j <= |p.disks|
      invariant fault == DisksFault(m, p.disks[..j], p.datastoreID, datastores)
      invariant fault.NoFault? ==> diskLocators == Locators(p.disks[..j])
    {
      var d := p.disks[j];
      assert p.disks[..j + 1][..j] == p.disks[..j];
      if d.key !in diskMap {
        fault := Failed;
      } else if d.datastoreID.Some? {
        if d.datastoreID.value !in datastores {
          fault := if p.datastoreID.None? then Panicked else Failed;
        } else {
          diskLocators := diskLocators + [DiskLocator(d.key, d.datastoreID.value)];
        }
      }
      j := j + 1;
    }
    if fault.NoFault? {
      assert p.disks[..|p.disks|] == p.disks;
    } else {
      FaultStays(m, p.disks, p.datastoreID, datastores, j);
    }
  }

  lemma {:induction false} DiskMapIsListing(m: DeviceMap, devices: seq<Device>)
    requires ValidMap(m) && Lists(m, devices)
    ensures forall k :: IndexOf(devices, Disk, k).Some? <==> k in m && m[k].kind.Disk?
  {
    forall k | k in m && m[k].kind.Disk? ensures IndexOf(devices, Disk, k).Some? {
      assert m[k] in devices;
    }
  }

  lemma {:induction false} FaultStays(m: DeviceMap, disks: seq<DiskStorageParameter>, common: Option<string>,
    datastores: set<string>, j: nat)
    requires j <= |disks| && !DisksFault(m, disks[..j], common, datastores).NoFault?
    ensures DisksFault(m, disks, common, datastores) == DisksFault(m, disks[..j], common, datastores)
  {
    if j < |disks| {
      var n := |disks| - 1;
      assert disks[..n][..j] == disks[..j];
      FaultStays(m, disks[..n], common, datastores, j);
    } else {
      assert disks[..j] == disks;
    }
  }

  // ----- In plain terms -----

  lemma {:induction false} LocatorsAre(disks: seq<DiskStorageParameter>, key: int, datastore: string)
    ensures DiskLocator(key, datastore) in Locators(disks) <==>
      exists i :: 0 <= i < |disks| && disks[i].key == key && disks[i].datastoreID == Some(datastore)
  {
    if disks != [] {
      LocatorsAre(disks[..|disks| - 1], key, datastore);
    }
  }

  /** The check ends well exactly when every disk is there and names no unknown datastore. */
  lemma {:induction false} ChecksOut(m: DeviceMap, disks: seq<DiskStorageParameter>, common: Option<string>,
    datastores: set<string>)
    ensures DisksFault(m, disks, common, datastores).NoFault? <==>
      forall i :: 0 <= i < |disks| ==>
        && disks[i].key in m && m[disks[i].key].kind.Disk?
        && (disks[i].datastoreID.Some? ==> disks[i].datastoreID.value in datastores)
  {
    if disks != [] {
      var n := |disks| - 1;
      ChecksOut(m, disks[..n], common, datastores);
    }
  }

  /** Otherwise the first disk that is not in order decides: a missing disk fails it, an unknown datastore fails it or,
      without a common datastore, panics. */
  lemma {:induction false} FirstDecides(m: DeviceMap, disks: seq<DiskStorageParameter>, common: Option<string>,
    datastores: set<string>, i: nat)
    requires i < |disks|
    requires forall j :: 0 <= j < i ==>
      && disks[j].key in m && m[disks[j].key].kind.Disk?
      && (disks[j].datastoreID.Some? ==> disks[j].datastoreID.value in datastores)
    ensures disks[i].key !in m || !m[disks[i].key].kind.Disk? ==> DisksFault(m, disks, common, datastores).Failed?
    ensures
      disks[i].key in m && m[disks[i].key].kind.Disk?
      && disks[i].datastoreID.Some? && disks[i].datastoreID.value !in datastores ==>
        DisksFault(m, disks, common, datastores) == if common.None? then Panicked else Failed
  {
    ChecksOut(m, disks[..i], common, datastores);
    assert disks[..i + 1][..i] == disks[..i];
    if !DisksFault(m, disks[..i + 1], common, datastores).NoFault? {
      FaultStays(m, disks, common, datastores, i + 1);
    }
  }

  /** A disk goes where its last locator sends it, and without one stays at the default. */
  lemma {:induction false} TargetIs(disks: seq<DiskLocator>, key: int, default: string)
    ensures
      || (TargetOf(disks, key, default) == default && forall i :: 0 <= i < |disks| ==> disks[i].diskID != key)
      || (exists i :: 0 <= i < |disks| && disks[i].diskID == key && TargetOf(disks, key, default) == disks[i].datastore
            && forall j :: i < j < |disks| ==> disks[j].diskID != key)
  {
    if disks != [] {
      var n := |disks| - 1;
      TargetIs(disks[..n], key, default);
      if disks[n].diskID != key && exists i :: 0 <= i < n && disks[i].diskID == key {
        var i :| 0 <= i < n && disks[..n][i].diskID == key
                 && TargetOf(disks[..n], key, default) == disks[..n][i].datastore
                 && forall j :: i < j < n ==> disks[..n][j].diskID != key;
        assert disks[i].diskID == key && TargetOf(disks, key, default) == disks[i].datastore;
        assert forall j :: i < j < n ==> disks[..n][j] == disks[j];
      }
    }
  }

  datatype RelocateOutcome = RelocateOutcome(found: bool, disksRead: bool, task: Outcome)

  /** The devices the check sees: none when they cannot be read. */
  function Seen(m: DeviceMap, o: RelocateOutcome): DeviceMap {
    if o.disksRead then m else map[]
  }

  /** Without devices the first disk is reported as missing. */
  lemma {:induction false} NothingSeen(disks: seq<DiskStorageParameter>, common: Option<string>,
    datastores: set<string>)
    ensures DisksFault(map[], disks, common, datastores) == if disks == [] then NoFault else Failed
  {
    if disks != [] {
      NothingSeen(disks[..|disks| - 1], common, datastores);
    }
  }

  /** Whether a relocation is sent to vCenter. */
  predicate Sends(m: DeviceMap, p: StorageParameter, datastores: set<string>, o: RelocateOutcome) {
    o.found && StorageFault(Seen(m, o), p, datastores).NoFault? && (p.datastoreID.Some? || Locators(p.disks) != [])
  }

  /** A relocation is sent exactly when the machine is found, every datastore named exists, every disk named is listed,
      and any datastore is named at all. */
  lemma SendsWhen(m: DeviceMap, p: StorageParameter, datastores: set<string>, o: RelocateOutcome)
    ensures Sends(m, p, datastores, o) <==>
      && o.found
      && (p.datastoreID.Some? ==> p.datastoreID.value in datastores)
      && (forall i :: 0 <= i < |p.disks| ==>
            && o.disksRead && p.disks[i].key in m && m[p.disks[i].key].kind.Disk?
            && (p.disks[i].datastoreID.Some? ==> p.disks[i].datastoreID.value in datastores))
      && (p.datastoreID.Some? || exists i :: 0 <= i < |p.disks| && p.disks[i].datastoreID.Some?)
  {
    ChecksOut(Seen(m, o), p.disks, p.datastoreID, datastores);
    SomeLocator(p.disks);
  }

  lemma {:induction false} SomeLocator(disks: seq<DiskStorageParameter>)
    ensures Locators(disks) != [] <==> exists i :: 0 <= i < |disks| && disks[i].datastoreID.Some?
  {
    if disks != [] {
      SomeLocator(disks[..|disks| - 1]);
    }
  }

  /** What a relocation that takes effect changes: the datastore of the disks, and nothing else. */
  lemma WhatIsMoved(m: DeviceMap, s: RelocateSpec, k: int)
    requires ValidMap(m) && k in m
    ensures k in MovedDevices(m, s)
    ensures m[k].kind.Disk? ==>
      var target := MovedDevices(m, s)[k].backing.datastore;
      && MovedDevices(m, s)[k] == m[k].(backing := m[k].backing.(datastore := target))
      && (|| ((forall i :: 0 <= i < |s.disks| ==> s.disks[i].diskID != k) &&
              target == if s.datastore.Some? then s.datastore.value else m[k].backing.datastore)
          || (exists i :: 0 <= i < |s.disks| && s.disks[i].diskID == k && target == s.disks[i].datastore
                && forall j :: i < j < |s.disks| ==> s.disks[j].diskID != k))
    ensures !m[k].kind.Disk? ==> MovedDevices(m, s)[k] == m[k]
  {
    if m[k].kind.Disk? {
      TargetIs(s.disks, k, s.datastore.GetOr(m[k].backing.datastore));
    }
  }

  /** Relocate the storage of a machine.  Nothing is sent when there is nothing to change. */
  method RelocateStorage(vc: VCenter, datastores: set<string>, id: string, p: StorageParameter, o: RelocateOutcome)
    returns (fault: Fault)
    requires id in vc.vms && ValidMap(vc.vms[id].devices)
    modifies vc
    ensures forall k :: k in old(vc.vms) && k != id ==> k in vc.vms && vc.vms[k] == old(vc.vms)[k]
    ensures vc.vms.Keys == old(vc.vms).Keys
    ensures fault ==
      if !o.found then Failed
      else if !StorageFault(Seen(old(vc.vms[id].devices), o), p, datastores).NoFault? then
        StorageFault(Seen(old(vc.vms[id].devices), o), p, datastores)
      else if !Sends(old(vc.vms[id].devices), p, datastores, o) || o.task.Done? then NoFault
      else Failed
    ensures vc.calls ==
      if Sends(old(vc.vms[id].devices), p, datastores, o)
      then old(vc.calls) + [Call.Relocate(id, RelocateSpec(p.datastoreID, Locators(p.disks)))]
      else old(vc.calls)
    ensures vc.vms[id] ==
      if Sends(old(vc.vms[id].devices), p, datastores, o) && !o.task.Refused?
      then old(vc.vms[id]).(devices :=
        MovedDevices(old(vc.vms[id].devices), RelocateSpec(p.datastoreID, Locators(p.disks))))
      else old(vc.vms[id])
  {
    if !o.found {
      return Failed;
    }
    var devices := vc.GetDevices(id);
    if !o.disksRead {
      devices := [];
    }
    var spec: RelocateSpec;
    var hasChange: bool;
    fault, spec, hasChange := ParseStorage(p, Seen(vc.vms[id].devices, o), devices, datastores);
    if !fault.NoFault? {
      return;
    }
    if hasChange {
      var ok := vc.Relocate(id, spec, o.task);
      fault := if ok then NoFault else Failed;
    }
  }
}
