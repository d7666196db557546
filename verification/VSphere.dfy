/** vCenter as the code sees it: the machines by ID, and calls whose outcome vCenter decides
    (helper/virtualmachine/virtual_machine.go:298-403).  A call that reports success has taken
    effect; one that reports an error may have taken effect or not. */
module VSphere {
  import opened Wrappers
  import opened Devices

  datatype Power = PoweredOn | PoweredOff | Suspended

  datatype Hardware = Hardware(
    numCPU: int32, coresPerSocket: int32, memoryMB: int32,
    memoryHotAdd: Option<bool>, cpuHotAdd: Option<bool>, cpuHotRemove: Option<bool>)

  datatype VM = VM(power: Power, hardware: Hardware, devices: DeviceMap)

  /** `Done`: success.  `Refused`: an error and no effect.  `Lost`: an error although the call took
      effect, as when waiting for the task times out. */
  datatype Outcome = Done | Refused | Lost

  /** A call that reads something of the machine first, as its power state: `Unread` if that fails, and then the
      code dereferences nil and panics before it calls. */
  datatype Attempt = Unread | Tried(call: Outcome) {
    predicate Succeeds() {
      Tried? && call.Done?
    }

    predicate TakesEffect() {
      Tried? && !call.Refused?
    }
  }

  /** A hardware change; 0 leaves the current value. */
  datatype HardwareSpec = HardwareSpec(numCPU: int32, coresPerSocket: int32, memoryMB: int32)

  function ChangedHardware(h: Hardware, s: HardwareSpec): Hardware {
    h.(numCPU := if s.numCPU != 0 then s.numCPU else h.numCPU,
       coresPerSocket := if s.coresPerSocket != 0 then s.coresPerSocket else h.coresPerSocket,
       memoryMB := if s.memoryMB != 0 then s.memoryMB else h.memoryMB)
  }

  /** The calls that reach vCenter, with the power state in which a change was submitted. */
  datatype Call =
    | GuestShutdown(id: string, ok: bool)
    | HardPowerOff(id: string, ok: bool)
    | Start(id: string, ok: bool)
    | Destroy(id: string, ok: bool)
    | Submit(id: string, power: Power, spec: HardwareSpec)
    | Relocate(id: string, move: RelocateSpec)
    | Customize(id: string, adapters: seq<int>)

  /** A disk and the datastore it is to move to. */
  datatype DiskLocator = DiskLocator(diskID: int, datastore: string)

  /** Where a machine's disks are to go: the named disks to their own datastores, the others to the
      common one if there is one. */
  datatype RelocateSpec = RelocateSpec(datastore: Option<string>, disks: seq<DiskLocator>)

  function TargetOf(disks: seq<DiskLocator>, key: int, default: string): string {
    if disks == [] then default else
    var n := |disks| - 1;
    if disks[n].diskID == key then disks[n].datastore else TargetOf(disks[..n], key, default)
  }

  function MovedDevice(d: Device, s: RelocateSpec): Device {
    if d.kind.Disk? && d.backing.DiskBacking? then
      d.(backing := d.backing.(datastore := TargetOf(s.disks, d.key, s.datastore.GetOr(d.backing.datastore))))
    else d
  }

  function MovedDevices(m: DeviceMap, s: RelocateSpec): DeviceMap {
    map k | k in m :: MovedDevice(m[k], s)
  }

  /** `Cloned`: the new machine was made and looked up.  `CloneFailed`: an error, perhaps with a machine
      left behind, as when waiting for the task times out.  `ClonePanics`: waiting fails for another reason than
      the deadline, which leaves no task info to dereference.  `CloneUnread`: the machine was made but the
      lookup that ends the call returned nothing, and no error. */
  datatype CloneOutcome =
    | Cloned(id: string, vm: VM)
    | CloneFailed(left: Option<string>, vm: VM)
    | ClonePanics(left: Option<string>, vm: VM)
    | CloneUnread(id: string, vm: VM)

  /** The machine a clone makes, if any. */
  function Made(o: CloneOutcome): set<string> {
    match o
    case Cloned(id, _) => {id}
    case CloneFailed(left, _) => if left.Some? then {left.value} else {}
    case ClonePanics(left, _) => if left.Some? then {left.value} else {}
    case CloneUnread(id, _) => {id}
  }

  /** `read`: the power state can be read once the machine is found. */
  datatype DestroyOutcome = DestroyOutcome(found: bool, read: bool, powerOff: Attempt, destroy: Outcome)

  class VCenter {
    var vms: map<string, VM>
    var calls: seq<Call>

    constructor (vms: map<string, VM>)
      ensures this.vms == vms && calls == []
    {
      this.vms := vms;
      calls := [];
    }

    /** The result is the new machine, if the caller gets hold of it, and how the call ends. */
    method Clone(o: CloneOutcome) returns (id: Option<string>, fault: Fault)
      requires Made(o) !! vms.Keys
      modifies this
      ensures id == if o.Cloned? then Some(o.id) else None
      ensures fault == if o.CloneFailed? then Failed else if o.ClonePanics? then Panicked else NoFault
      ensures vms.Keys == old(vms).Keys + Made(o)
      ensures forall k :: k in vms ==> vms[k] == if k in old(vms) then old(vms)[k] else o.vm
      ensures calls == old(calls)
    {
      id, fault := None, NoFault;
      match o
      case Cloned(i, vm) =>
        vms := vms[i := vm];
        id := Some(i);
      case CloneFailed(left, vm) =>
        if left.Some? {
          vms := vms[left.value := vm];
        }
        fault := Failed;
      case ClonePanics(left, vm) =>
        if left.Some? {
          vms := vms[left.value := vm];
        }
        fault := Panicked;
      case CloneUnread(i, vm) =>
        vms := vms[i := vm];
    }

    /** Send the guest settings: one entry for each adapter, in order. The family of the guest is read before. */
    method Customize(id: string, adapters: seq<int>, o: Attempt) returns (fault: Fault)
      requires id in vms
      modifies this`calls
      ensures fault == if o.Unread? then Panicked else if o.Succeeds() then NoFault else Failed
      ensures calls == if o.Unread? then old(calls) else old(calls) + [Call.Customize(id, adapters)]
    {
      if o.Unread? {
        return Panicked;
      }
      calls := calls + [Call.Customize(id, adapters)];
      fault := if o.call.Done? then NoFault else Failed;
    }

    method PowerOn(id: string, o: Attempt) returns (fault: Fault)
      requires id in vms
      modifies this
      ensures fault ==
        if o.Unread? then Panicked
        else if old(vms[id].power).PoweredOn? || o.Succeeds() then NoFault
        else Failed
      ensures vms == old(vms)[id := old(vms[id]).(power := if o.TakesEffect() then PoweredOn else old(vms[id].power))]
      ensures calls == if o.Unread? || old(vms[id].power).PoweredOn? then old(calls)
                       else old(calls) + [Start(id, fault.NoFault?)]
    {
      assert vms[id] == vms[id].(power := vms[id].power);
      if o.Unread? {
        return Panicked;
      }
      if vms[id].power.PoweredOn? {
        return NoFault;
      }
      if !o.call.Refused? {
        vms := vms[id := vms[id].(power := PoweredOn)];
      }
      fault := if o.call.Done? then NoFault else Failed;
      calls := calls + [Start(id, fault.NoFault?)];
    }

    method PowerOff(id: string, o: Attempt) returns (fault: Fault)
      requires id in vms
      modifies this
      ensures fault ==
        if o.Unread? then Panicked
        else if old(vms[id].power).PoweredOff? || o.Succeeds() then NoFault
        else Failed
      ensures vms == old(vms)[id := old(vms[id]).(power := if o.TakesEffect() then PoweredOff else old(vms[id].power))]
      ensures calls == if o.Unread? || old(vms[id].power).PoweredOff? then old(calls)
                       else old(calls) + [HardPowerOff(id, fault.NoFault?)]
    {
      assert vms[id] == vms[id].(power := vms[id].power);
      if o.Unread? {
        return Panicked;
      }
      if vms[id].power.PoweredOff? {
        return NoFault;
      }
      if !o.call.Refused? {
        vms := vms[id := vms[id].(power := PoweredOff)];
      }
      fault := if o.call.Done? then NoFault else Failed;
      calls := calls + [HardPowerOff(id, fault.NoFault?)];
    }

    /** A guest shutdown that reports success has waited for the machine to be off. */
    method Shutdown(id: string, o: Attempt) returns (fault: Fault)
      requires id in vms
      modifies this
      ensures fault ==
        if o.Unread? then Panicked
        else if old(vms[id].power).PoweredOff? || o.Succeeds() then NoFault
        else Failed
      ensures vms == old(vms)[id := old(vms[id]).(power := if o.TakesEffect() then PoweredOff else old(vms[id].power))]
      ensures calls == if o.Unread? || old(vms[id].power).PoweredOff? then old(calls)
                       else old(calls) + [GuestShutdown(id, fault.NoFault?)]
    {
      assert vms[id] == vms[id].(power := vms[id].power);
      if o.Unread? {
        return Panicked;
      }
      if vms[id].power.PoweredOff? {
        return NoFault;
      }
      if !o.call.Refused? {
        vms := vms[id := vms[id].(power := PoweredOff)];
      }
      fault := if o.call.Done? then NoFault else Failed;
      calls := calls + [GuestShutdown(id, fault.NoFault?)];
    }

    method Relocate(id: string, spec: RelocateSpec, o: Outcome) returns (ok: bool)
      requires id in vms
      modifies this
      ensures ok == o.Done?
      ensures vms == if o.Refused? then old(vms)
                     else old(vms)[id := old(vms[id]).(devices := MovedDevices(old(vms[id].devices), spec))]
      ensures calls == old(calls) + [Call.Relocate(id, spec)]
    {
      calls := calls + [Call.Relocate(id, spec)];
      if !o.Refused? {
        vms := vms[id := vms[id].(devices := MovedDevices(vms[id].devices, spec))];
      }
      ok := o.Done?;
    }

    /** The devices of a machine, in whatever order vCenter lists them. */
    method GetDevices(id: string) returns (devices: seq<Device>)
      requires id in vms && ValidMap(vms[id].devices)
      ensures Lists(vms[id].devices, devices)
    {
      var m := vms[id].devices;
      devices := [];
      var keys := m.Keys;
      while keys != {}
        invariant keys <= m.Keys
        invariant forall i :: 0 <= i < |devices| ==> devices[i].key in m.Keys - keys && m[devices[i].key] == devices[i]
        invariant forall i, j :: 0 <= i < j < |devices| ==> devices[i].key != devices[j].key
        invariant forall k :: k in m.Keys - keys ==> m[k] in devices
      {
        var _ := SomeElement(keys);
        var k :| k in keys;
        devices := devices + [m[k]];
        keys := keys - {k};
      }
    }

    /** A machine that cannot be looked up counts as destroyed (virtual_machine.go:384-387). */
    method Destroy(id: string, o: DestroyOutcome) returns (fault: Fault)
      modifies this
      ensures forall k :: k in old(vms) && k != id ==> k in vms && vms[k] == old(vms)[k]
      ensures vms.Keys == old(vms).Keys - if DestroyTakesEffect(old(vms), id, o) then {id} else {}
      ensures id in vms ==>
        vms[id] == old(vms[id]).(power :=
          if o.found && o.read && o.powerOff.TakesEffect() then PoweredOff else old(vms[id].power))
      ensures fault.Panicked? <==> id in old(vms) && DestroyPanics(old(vms[id].power), o)
      ensures fault.Panicked? ==> vms == old(vms)
      ensures fault.NoFault? <==>
        || id !in old(vms) || !o.found
        || (o.read && (old(vms[id].power).PoweredOff? || o.powerOff.Succeeds()) && o.destroy.Done?)
      ensures calls == old(calls) +
        (if id !in old(vms) || !o.found || !o.read then []
         else if old(vms[id].power).PoweredOff? then [Call.Destroy(id, o.destroy.Done?)]
         else if o.powerOff.Unread? then []
         else if !o.powerOff.call.Done? then [HardPowerOff(id, false)]
         else [HardPowerOff(id, true), Call.Destroy(id, o.destroy.Done?)])
    {
      assert id in vms ==> vms[id] == vms[id].(power := vms[id].power);
      if id !in vms || !o.found {
        return NoFault;
      }
      if !o.read {
        return Panicked;
      }
      if !vms[id].power.PoweredOff? {
        var off := PowerOff(id, o.powerOff);
        if !off.NoFault? {
          return off;
        }
      }
      if !o.destroy.Refused? {
        vms := vms - {id};
      }
      fault := if o.destroy.Done? then NoFault else Failed;
      calls := calls + [Call.Destroy(id, fault.NoFault?)];
    }

    method Reconfigure(id: string, spec: HardwareSpec, changes: seq<Change>, landings: seq<Landing>, o: Outcome)
      returns (ok: bool)
      requires id in vms && |landings| == |AddedDevices(changes)|
      modifies this
      ensures var m := old(vms[id]);
        var applied := Apply(m.devices, changes, landings);
        && ok == (applied.Some? && o.Done?)
        && vms == if applied.None? || o.Refused? then old(vms)
                  else old(vms)[id := VM(m.power, ChangedHardware(m.hardware, spec), applied.value)]
      ensures calls == old(calls) + [Submit(id, old(vms[id].power), spec)]
    {
      var m := vms[id];
      calls := calls + [Submit(id, m.power, spec)];
      match Apply(m.devices, changes, landings)
      case None => ok := false;
      case Some(devices) =>
        if !o.Refused? {
          vms := vms[id := VM(m.power, ChangedHardware(m.hardware, spec), devices)];
        }
        ok := o.Done?;
    }
  }

  /** Whether destroying `id` removes it. */
  predicate DestroyTakesEffect(vms: map<string, VM>, id: string, o: DestroyOutcome) {
    id in vms && DestroyWorks(vms[id].power, o)
  }

  predicate DestroyWorks(power: Power, o: DestroyOutcome) {
    o.found && o.read && (power.PoweredOff? || o.powerOff.Succeeds()) && !o.destroy.Refused?
  }

  /** The power state cannot be read, at first or again before the machine is stopped. */
  predicate DestroyPanics(power: Power, o: DestroyOutcome) {
    o.found && (!o.read || (!power.PoweredOff? && o.powerOff.Unread?))
  }
}
