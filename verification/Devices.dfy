/** Virtual devices as the vSphere API reports them, and what vCenter does with a list of
    device changes. */
module Devices {
  import opened Wrappers

  datatype DeviceKind = Disk | Card | DiskController | OtherDevice

  datatype Backing =
    | DiskBacking(mode: string, sharing: string, format: string, datastore: string)
    | CardBacking(network: string, deviceName: string)
    | NoBacking

  datatype Device = Device(
    kind: DeviceKind,
    key: int,
    unit: Option<int>,
    capacityInKB: int,
    capacityInBytes: int,
    backing: Backing,
    mac: string,
    addressType: string)

  /** What the code takes for granted about a device: a disk always has a unit number and a flat
      backing, a card a network backing (the code dereferences and casts without a check). */
  predicate ValidDevice(d: Device) {
    && (d.kind.Disk? ==> d.unit.Some? && d.backing.DiskBacking?)
    && (d.kind.Card? ==> d.backing.CardBacking?)
  }

  /** The devices of one machine, by key. */
  type DeviceMap = map<int, Device>

  ghost predicate ValidMap(m: DeviceMap) {
    forall k :: k in m ==> m[k].key == k && ValidDevice(m[k])
  }

  /** `devices` lists exactly the devices of `m`, in an order of vCenter's choosing. */
  ghost predicate Lists(m: DeviceMap, devices: seq<Device>) {
    && (forall i :: 0 <= i < |devices| ==> devices[i].key in m && m[devices[i].key] == devices[i])
    && (forall i, j :: 0 <= i < j < |devices| ==> devices[i].key != devices[j].key)
    && (forall k :: k in m ==> m[k] in devices)
  }

  function SelectKind(devices: seq<Device>, kind: DeviceKind): (r: seq<Device>)
    ensures forall d :: d in r <==> d in devices && d.kind == kind
  {
    if devices == [] then [] else
    SelectKind(devices[..|devices| - 1], kind)
    + if devices[|devices| - 1].kind == kind then [devices[|devices| - 1]] else []
  }

  datatype Operation = Add | Edit | Remove
  datatype FileOperation = NoFile | CreateFile | DestroyFile

  /** One device change as it is sent to vCenter. */
  datatype Change = Change(op: Operation, file: FileOperation, profile: Option<string>, device: Device)

  /** vCenter's choices for a device it adds: a key and, for a disk, a datastore. */
  datatype Landing = Landing(key: int, datastore: string)

  /** The added device as vCenter reports it afterwards.  The unit number is kept. */
  function Land(d: Device, l: Landing): Device {
    if d.backing.DiskBacking? then d.(key := l.key, backing := d.backing.(datastore := l.datastore))
    else d.(key := l.key)
  }

  /** The devices that a change list adds, in order. */
  function AddedDevices(changes: seq<Change>): seq<Device> {
    if changes == [] then [] else
    var n := |changes| - 1;
    if changes[n].op.Add? then AddedDevices(changes[..n]) + [changes[n].device] else AddedDevices(changes[..n])
  }

  function RemovedKeys(changes: seq<Change>): set<int> {
    if changes == [] then {} else
    var n := |changes| - 1;
    if changes[n].op.Remove? then RemovedKeys(changes[..n]) + {changes[n].device.key} else RemovedKeys(changes[..n])
  }

  /** The keys of existing devices that a change list names. */
  function NamedKeys(changes: seq<Change>): set<int> {
    if changes == [] then {} else
    var n := |changes| - 1;
    if changes[n].op.Add? then NamedKeys(changes[..n]) else NamedKeys(changes[..n]) + {changes[n].device.key}
  }

  /** The record a change list leaves for an existing device. */
  function LastEdit(changes: seq<Change>, d: Device): (r: Device)
    ensures r.key == d.key
  {
    if changes == [] then d else
    var n := |changes| - 1;
    if changes[n].op.Edit? && changes[n].device.key == d.key then changes[n].device
    else LastEdit(changes[..n], d)
  }

  /** No device is named after it was removed. */
  predicate Compatible(changes: seq<Change>) {
    if changes == [] then true else
    var n := |changes| - 1;
    Compatible(changes[..n]) && (changes[n].op.Add? || changes[n].device.key !in RemovedKeys(changes[..n]))
  }

  /** The keys chosen for new devices are new and differ. */
  ghost predicate FreshLandings(m: DeviceMap, landings: seq<Landing>) {
    && (forall i :: 0 <= i < |landings| ==> landings[i].key !in m)
    && (forall i, j :: 0 <= i < j < |landings| ==> landings[i].key != landings[j].key)
  }

  function LandedKeys(landings: seq<Landing>): set<int> {
    set i | 0 <= i < |landings| :: landings[i].key
  }

  /** vCenter carries out the changes in order; a removal or an edit of a device that is not
      there refuses the whole list.  The i-th addition gets the i-th landing. */
  function Apply(m: DeviceMap, changes: seq<Change>, landings: seq<Landing>): Option<DeviceMap>
    requires |landings| == |AddedDevices(changes)|
  {
    if changes == [] then Some(m) else
    var n := |changes| - 1;
    var d := changes[n].device;
    var k := |AddedDevices(changes[..n])|;
    match Apply(m, changes[..n], landings[..k])
    case None => None
    case Some(before) =>
      match changes[n].op
      case Add => Some(before[landings[k].key := Land(d, landings[k])])
      case Edit => if d.key in before then Some(before[d.key := d]) else None
      case Remove => if d.key in before then Some(before - {d.key}) else None
  }

  /** `after` is `m` with the whole list carried out. */
  ghost predicate CarriedOut(m: DeviceMap, changes: seq<Change>, landings: seq<Landing>, after: DeviceMap)
    requires |landings| == |AddedDevices(changes)|
  {
    && after.Keys == (m.Keys - RemovedKeys(changes)) + LandedKeys(landings)
    && (forall k :: k in m && k in after ==> after[k] == LastEdit(changes, m[k]))
    && (forall i :: 0 <= i < |landings| ==> after[landings[i].key] == Land(AddedDevices(changes)[i], landings[i]))
  }

  /** A list is refused exactly when it names a device after removing it; otherwise the result is
      the one read off the list as a whole. */
  lemma {:induction false} ApplyCarriesOut(m: DeviceMap, changes: seq<Change>, landings: seq<Landing>)
    requires |landings| == |AddedDevices(changes)| && FreshLandings(m, landings)
    requires ValidMap(m) && NamedKeys(changes) <= m.Keys
    ensures Apply(m, changes, landings).Some? <==> Compatible(changes)
    ensures Apply(m, changes, landings).Some? ==>
      CarriedOut(m, changes, landings, Apply(m, changes, landings).value)
  {
    if changes != [] {
      var n := |changes| - 1;
      var k := |AddedDevices(changes[..n])|;
      ApplyCarriesOut(m, changes[..n], landings[..k]);
      match Apply(m, changes[..n], landings[..k])
      case None =>
      case Some(before) =>
        match changes[n].op
        case Add => ApplyAdd(m, changes, landings, before);
        case Edit => ApplyEdit(m, changes, landings, before);
        case Remove => ApplyRemove(m, changes, landings, before);
    }
  }

  /** All changes but the last are carried out. */
  ghost predicate AtLast(m: DeviceMap, changes: seq<Change>, landings: seq<Landing>, before: DeviceMap) {
    && changes != [] && |landings| == |AddedDevices(changes)|
    && FreshLandings(m, landings) && ValidMap(m) && NamedKeys(changes) <= m.Keys
    && var n := |changes| - 1;
      var k := |AddedDevices(changes[..n])|;
      && Compatible(changes[..n])
      && Apply(m, changes[..n], landings[..k]) == Some(before)
      && CarriedOut(m, changes[..n], landings[..k], before)
  }

  lemma {:induction false} ApplyAdd(m: DeviceMap, changes: seq<Change>, landings: seq<Landing>, before: DeviceMap)
    requires AtLast(m, changes, landings, before) && changes[|changes| - 1].op.Add?
    ensures Compatible(changes) && Apply(m, changes, landings).Some?
    ensures CarriedOut(m, changes, landings, Apply(m, changes, landings).value)
  {
    var k := |landings| - 1;
    assert LandedKeys(landings) == LandedKeys(landings[..k]) + {landings[k].key};
  }

  lemma {:induction false} ApplyEdit(m: DeviceMap, changes: seq<Change>, landings: seq<Landing>, before: DeviceMap)
    requires AtLast(m, changes, landings, before) && changes[|changes| - 1].op.Edit?
    ensures Apply(m, changes, landings).Some? <==> Compatible(changes)
    ensures Apply(m, changes, landings).Some? ==>
      CarriedOut(m, changes, landings, Apply(m, changes, landings).value)
  {
    assert landings[..|landings|] == landings;
    assert changes[|changes| - 1].device.key in NamedKeys(changes);
    assert changes[|changes| - 1].device.key !in LandedKeys(landings);
  }

  lemma {:induction false} ApplyRemove(m: DeviceMap, changes: seq<Change>, landings: seq<Landing>, before: DeviceMap)
    requires AtLast(m, changes, landings, before) && changes[|changes| - 1].op.Remove?
    ensures Apply(m, changes, landings).Some? <==> Compatible(changes)
    ensures Apply(m, changes, landings).Some? ==>
      CarriedOut(m, changes, landings, Apply(m, changes, landings).value)
  {
    assert landings[..|landings|] == landings;
    assert changes[|changes| - 1].device.key in NamedKeys(changes);
    assert changes[|changes| - 1].device.key !in LandedKeys(landings);
  }

  // ----- Two lists one after the other -----

  lemma {:induction false} ConcatChanges(a: seq<Change>, b: seq<Change>)
    ensures AddedDevices(a + b) == AddedDevices(a) + AddedDevices(b)
    ensures RemovedKeys(a + b) == RemovedKeys(a) + RemovedKeys(b)
    ensures NamedKeys(a + b) == NamedKeys(a) + NamedKeys(b)
    ensures Compatible(a + b) <==> Compatible(a) && Compatible(b) && RemovedKeys(a) !! NamedKeys(b)
  {
    if b == [] {
      assert a + b == a;
    } else {
      var n := |b| - 1;
      ConcatChanges(a, b[..n]);
      assert (a + b)[..|a + b| - 1] == a + b[..n];
    }
  }

  lemma {:induction false} ConcatLastEdit(a: seq<Change>, b: seq<Change>, d: Device)
    ensures LastEdit(a + b, d) == LastEdit(b, LastEdit(a, d))
  {
    if b == [] {
      assert a + b == a;
    } else {
      var n := |b| - 1;
      ConcatLastEdit(a, b[..n], d);
      assert (a + b)[..|a + b| - 1] == a + b[..n];
    }
  }
}
