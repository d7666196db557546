/** The device-change compiler: a request to remove, edit and add disks and cards becomes a list of
    device changes (helper/virtualmachine/virtualmachinereconfig/virtual_machine_reconfig.go).

    The device list is an array whose records are edited in place.  An entry of the change list
    refers to an existing device by its position, as the source does by pointer, so an entry shows
    the record as it is when the list is submitted. */
module Reconfiguration {
  import opened Wrappers
  import opened Devices
  import opened UnitNumbers

  datatype AddDiskParameter = AddDiskParameter(
    size: int32, format: string, mode: Option<string>, policy: Option<string>, sharing: Option<string>,
    unitNumber: Option<int>)

  datatype EditDiskParameter = EditDiskParameter(
    key: int, size: Option<int32>, mode: Option<string>, policy: Option<string>, sharing: Option<string>)

  datatype AddNicParameter = AddNicParameter(
    id: string, networkID: string, adapterType: Option<string>, addressType: Option<string>,
    mac: Option<string>, unitNumber: Option<int>)

  datatype EditNicParameter = EditNicParameter(key: int, networkID: Option<string>, mac: Option<string>)

  /** The requests as the code holds them: the added items are written to. */
  datatype DiskParameter = DiskParameter(
    add: array<AddDiskParameter>, edit: seq<EditDiskParameter>, remove: seq<int>)
  datatype NicParameter = NicParameter(
    add: array<AddNicParameter>, edit: seq<EditNicParameter>, remove: seq<int>)

  /** The requests as values. */
  datatype DiskRequest = DiskRequest(
    add: seq<AddDiskParameter>, edit: seq<EditDiskParameter>, remove: seq<int>)
  datatype NicRequest = NicRequest(
    add: seq<AddNicParameter>, edit: seq<EditNicParameter>, remove: seq<int>)

  /** The facts about a vCenter that the compiler asks for: whether its version is at least 6.0,
      the names of its networks by ID, and the adapter types it can create. */
  datatype Api = Api(newer60: bool, networks: map<string, string>, adapterTypes: set<string>)

  const FORMATS: set<string> := {"thin", "flat", "think", "nativeThink"}
  const MAC_TYPE_MANUAL := "manual"

  datatype Entry =
    | Touch(op: Operation, file: FileOperation, profile: Option<string>, at: nat)
    | Create(file: FileOperation, profile: Option<string>, device: Device)

  predicate Within(entries: seq<Entry>, n: nat) {
    forall i :: 0 <= i < |entries| && entries[i].Touch? ==> entries[i].at < n
  }

  /** The change list as it is submitted. */
  function Payload(devices: seq<Device>, entries: seq<Entry>): seq<Change>
    requires Within(entries, |devices|)
  {
    seq(|entries|, i requires 0 <= i < |entries| =>
      match entries[i]
      case Touch(op, file, profile, at) => Change(op, file, profile, devices[at])
      case Create(file, profile, device) => Change(Add, file, profile, device))
  }

  // ----- Capacities -----

  function CapacityInKB(size: int32): int {
    WrapInt64(WrapInt64(size * 1024) * 1024)
  }

  function CapacityInBytes(size: int32): int {
    WrapInt64(CapacityInKB(size) * 1024)
  }

  /** The size in GiB that a query reports for a capacity (vsphere/virtual_machine.go:324). */
  function ReportedSize(capacityInKB: int): int {
    WrapInt32(TruncDiv(TruncDiv(capacityInKB, 1024), 1024))
  }

  /** No capacity overflows 64 bits, and the size comes back. */
  lemma CapacityRoundTrip(size: int32)
    ensures CapacityInKB(size) == size * 1024 * 1024
    ensures CapacityInBytes(size) == 1024 * CapacityInKB(size)
    ensures ReportedSize(CapacityInKB(size)) == size
  {
    NoWrap64(size * 1024);
    NoWrap64(size * 1024 * 1024);
    NoWrap64(size * 1024 * 1024 * 1024);
    assert TruncDiv(size * 1024 * 1024, 1024) == size * 1024;
    assert TruncDiv(size * 1024, 1024) == size;
    NoWrap(size);
  }

  // ----- Devices of a kind, by key -----

  /** The position that a map from key to device, filled in list order, holds for `key`. */
  function IndexOf(devices: seq<Device>, kind: DeviceKind, key: int): (r: Option<nat>)
    ensures r.Some? ==> r.value < |devices| && devices[r.value].kind == kind && devices[r.value].key == key
    ensures r.None? ==> forall d :: d in devices && d.kind == kind ==> d.key != key
  {
    if devices == [] then None else
    var n := |devices| - 1;
    if devices[n].kind == kind && devices[n].key == key then Some(n)
    else
      assert devices == devices[..n] + [devices[n]];
      IndexOf(devices[..n], kind, key)
  }

  method BuildKeyMap(devices: array<Device>, kind: DeviceKind) returns (byKey: map<int, nat>)
    ensures forall k :: k in byKey <==> IndexOf(devices[..], kind, k).Some?
    ensures forall k :: k in byKey ==> byKey[k] == IndexOf(devices[..], kind, k).value
  {
    byKey := map[];
    for i := 0 to devices.Length
      invariant forall k :: k in byKey <==> IndexOf(devices[..i], kind, k).Some?
      invariant forall k :: k in byKey ==> byKey[k] == IndexOf(devices[..i], kind, k).value
    {
      assert devices[..i + 1][..i] == devices[..i];
      if devices[i].kind == kind {
        byKey := byKey[devices[i].key := i];
      }
    }
    assert devices[..devices.Length] == devices[..];
  }

  // ----- Disks -----

  predicate RemovesDisk(remove: seq<int>, d: Device) {
    d.kind.Disk? && d.unit != Some(0) && d.key in remove
  }

  function DiskRemovals(devices: seq<Device>, remove: seq<int>): seq<Entry> {
    if devices == [] then [] else
    var n := |devices| - 1;
    DiskRemovals(devices[..n], remove)
    + if RemovesDisk(remove, devices[n]) then [Touch(Remove, DestroyFile, None, n)] else []
  }

  lemma {:induction false} NothingToRemove(devices: seq<Device>)
    ensures DiskRemovals(devices, []) == [] && NicRemovals(devices, []) == []
  {
    if devices != [] {
      NothingToRemove(devices[..|devices| - 1]);
    }
  }

  method RemoveDisk(removeDisks: seq<int>, devices: array<Device>, change: seq<Entry>) returns (changed: seq<Entry>)
    requires AllValid(devices[..])
    ensures changed == change + DiskRemovals(devices[..], removeDisks)
  {
    changed := change;
    if |removeDisks| == 0 {
      NothingToRemove(devices[..]);
      return;
    }
    for i := 0 to devices.Length
      invariant changed == change + DiskRemovals(devices[..i], removeDisks)
    {
      assert devices[..i + 1][..i] == devices[..i];
      if devices[i].kind.Disk? {
        assert devices[i] == devices[..][i];
        if devices[i].unit.value == 0 {
          // The system disk is never removed.
        } else if devices[i].key in removeDisks {
          changed := changed + [Touch(Remove, DestroyFile, None, i)];
        }
      }
    }
    assert devices[..devices.Length] == devices[..];
  }

  /** One edit of one disk record. */
  function EditedDisk(d: Device, e: EditDiskParameter, newer60: bool): Device
    requires d.backing.DiskBacking?
  {
    var sized := if e.size.None? then d else
      d.(capacityInKB := CapacityInKB(e.size.value), capacityInBytes := CapacityInBytes(e.size.value));
    sized.(backing := d.backing.(
      mode := e.mode.GetOr(d.backing.mode),
      sharing := if newer60 then e.sharing.GetOr(d.backing.sharing) else d.backing.sharing))
  }

  predicate AllValid(devices: seq<Device>) {
    forall i :: 0 <= i < |devices| ==> ValidDevice(devices[i])
  }

  function EditDisks(devices: seq<Device>, edits: seq<EditDiskParameter>, newer60: bool): (r: seq<Device>)
    requires AllValid(devices)
    ensures |r| == |devices| && AllValid(r)
    ensures forall i :: 0 <= i < |r| ==>
      r[i].kind == devices[i].kind && r[i].key == devices[i].key && r[i].unit == devices[i].unit
  {
    if edits == [] then devices else
    var n := |edits| - 1;
    var before := EditDisks(devices, edits[..n], newer60);
    match IndexOf(before, Disk, edits[n].key)
    case None => before
    case Some(i) => before[i := EditedDisk(before[i], edits[n], newer60)]
  }

  function DiskEdits(devices: seq<Device>, edits: seq<EditDiskParameter>): seq<Entry> {
    if edits == [] then [] else
    var n := |edits| - 1;
    DiskEdits(devices, edits[..n])
    + match IndexOf(devices, Disk, edits[n].key)
      case None => []
      case Some(i) => [Touch(Edit, NoFile, edits[n].policy, i)]
  }

  /** Edits move no device: a key stays at its position. */
  lemma {:induction false} IndexOfSame(a: seq<Device>, b: seq<Device>, kind: DeviceKind, key: int)
    requires |a| == |b|
    requires forall i :: 0 <= i < |a| ==> a[i].kind == b[i].kind && a[i].key == b[i].key
    ensures IndexOf(a, kind, key) == IndexOf(b, kind, key)
  {
    if a != [] {
      IndexOfSame(a[..|a| - 1], b[..|b| - 1], kind, key);
    }
  }

  method EditOneDisk(api: Api, ed: EditDiskParameter, devices: array<Device>, at: nat)
    requires at < devices.Length && devices[at].backing.DiskBacking?
    modifies devices
    ensures devices[..] == old(devices[..])[at := EditedDisk(old(devices[at]), ed, api.newer60)]
  {
    var vd := devices[at];
    if ed.size.Some? {
      vd := vd.(capacityInBytes := CapacityInBytes(ed.size.value), capacityInKB := CapacityInKB(ed.size.value));
    }
    var backing := vd.backing;
    if ed.mode.Some? {
      backing := backing.(mode := ed.mode.value);
    }
    if api.newer60 {
      if ed.sharing.Some? {
        backing := backing.(sharing := ed.sharing.value);
      }
    }
    devices[at] := vd.(backing := backing);
  }

  /** One more edit. */
  lemma {:induction false} EditDisksStep(devices: seq<Device>, edits: seq<EditDiskParameter>, newer60: bool, j: nat)
    requires j < |edits| && AllValid(devices)
    ensures var before := EditDisks(devices, edits[..j], newer60);
      match IndexOf(devices, Disk, edits[j].key)
      case None =>
        && EditDisks(devices, edits[..j + 1], newer60) == before
        && DiskEdits(devices, edits[..j + 1]) == DiskEdits(devices, edits[..j])
      case Some(i) =>
        && before[i].backing.DiskBacking?
        && EditDisks(devices, edits[..j + 1], newer60) == before[i := EditedDisk(before[i], edits[j], newer60)]
        && DiskEdits(devices, edits[..j + 1]) ==
          DiskEdits(devices, edits[..j]) + [Touch(Edit, NoFile, edits[j].policy, i)]
  {
    assert edits[..j + 1][..j] == edits[..j];
    var before := EditDisks(devices, edits[..j], newer60);
    IndexOfSame(devices, before, Disk, edits[j].key);
    match IndexOf(devices, Disk, edits[j].key)
    case None =>
    case Some(i) => assert ValidDevice(before[i]);
  }

  method EditDisk(api: Api, editDisks: seq<EditDiskParameter>, devices: array<Device>, change: seq<Entry>)
    returns (changed: seq<Entry>)
    requires AllValid(devices[..])
    modifies devices
    ensures AllValid(old(devices[..]))
    ensures devices[..] == EditDisks(old(devices[..]), editDisks, api.newer60)
    ensures changed == change + DiskEdits(old(devices[..]), editDisks)
  {
    changed := change;
    if |editDisks| == 0 {
      return;
    }
    var diskMap := BuildKeyMap(devices, Disk);
    ghost var was := devices[..];
    for j := 0 to |editDisks|
      invariant devices[..] == EditDisks(was, editDisks[..j], api.newer60)
      invariant changed == change + DiskEdits(was, editDisks[..j])
    {
      EditDisksStep(was, editDisks, api.newer60, j);
      var ed := editDisks[j];
      if ed.key in diskMap {
        var at := diskMap[ed.key];
        assert devices[at] == devices[..][at];
        EditOneDisk(api, ed, devices, at);
        ghost var done := DiskEdits(was, editDisks[..j]);
        changed := changed + [Touch(Edit, NoFile, ed.policy, at)];
        Associate(change, done, [Touch(Edit, NoFile, ed.policy, at)]);
      }
    }
    assert editDisks[..|editDisks|] == editDisks;
  }

  /** The record of a new disk. */
  function NewDisk(a: AddDiskParameter, unit: int, newer60: bool): Device {
    Device(Disk, 0, Some(unit), CapacityInKB(a.size), CapacityInBytes(a.size),
      DiskBacking(a.mode.GetOr(""), if newer60 then a.sharing.GetOr("") else "", a.format, ""), "", "")
  }

  function DiskAdditions(adds: seq<AddDiskParameter>, units: seq<int>, newer60: bool): seq<Entry>
    requires |units| == |adds|
  {
    seq(|adds|, i requires 0 <= i < |adds| =>
      Create(CreateFile, adds[i].policy, NewDisk(adds[i], units[i], newer60)))
  }

  predicate HasController(devices: seq<Device>) {
    exists d :: d in devices && d.kind.DiskController?
  }

  predicate KnownFormats(adds: seq<AddDiskParameter>) {
    forall a :: a in adds ==> a.format in FORMATS
  }

  /** Whether adding the disks ends well: it fails without a controller, and an unknown format is a
      nil dereference (virtual_machine_reconfig.go:388-390). */
  function AddDiskFault(adds: seq<AddDiskParameter>, devices: seq<Device>): Fault {
    if adds == [] then NoFault
    else if !HasController(devices) then Failed
    else if !KnownFormats(adds) then Panicked
    else NoFault
  }

  /** The added items with the numbers they were given written back. */
  function NumberDisks(adds: seq<AddDiskParameter>, units: seq<int>): seq<AddDiskParameter>
    requires |units| == |adds|
  {
    seq(|adds|, i requires 0 <= i < |adds| => adds[i].(unitNumber := Some(units[i])))
  }

  method AddDisk(api: Api, newDisks: array<AddDiskParameter>, devices: array<Device>, change: seq<Entry>)
    returns (fault: Fault, changed: seq<Entry>)
    requires devices.Length + newDisks.Length + 9 <= MAX_INT32
    modifies newDisks
    ensures fault == AddDiskFault(old(newDisks[..]), devices[..])
    ensures fault.NoFault? ==>
      var units := FreshUnits(devices[..], "disk", newDisks.Length);
      && changed == change + DiskAdditions(old(newDisks[..]), units, api.newer60)
      && newDisks[..] == NumberDisks(old(newDisks[..]), units)
  {
    fault, changed := NoFault, change;
    if newDisks.Length == 0 {
      return;
    }
    var found := false;
    for i := 0 to devices.Length
      invariant found <==> HasController(devices[..i])
    {
      found := found || devices[i].kind.DiskController?;
      assert devices[..i + 1] == devices[..i] + [devices[i]];
    }
    assert devices[..devices.Length] == devices[..];
    if !found {
      return Failed, changed;
    }
    ghost var adds := newDisks[..];
    var newUnitNums := GenerateUnitNum(devices, "disk", newDisks.Length);
    for i := 0 to newDisks.Length
      invariant forall j :: 0 <= j < i ==> adds[j].format in FORMATS
      invariant changed == change + DiskAdditions(adds[..i], newUnitNums[..i], api.newer60)
      invariant forall j :: 0 <= j < i ==> newDisks[j] == adds[j].(unitNumber := Some(newUnitNums[j]))
      invariant forall j :: i <= j < newDisks.Length ==> newDisks[j] == adds[j]
    {
      var nd := newDisks[i];
      if nd.format !in FORMATS {
        assert adds[i] in adds;
        return Panicked, changed;
      }
      var vd := NewDisk(nd, newUnitNums[i], api.newer60);
      newDisks[i] := nd.(unitNumber := vd.unit);
      changed := changed + [Create(CreateFile, nd.policy, vd)];
      assert DiskAdditions(adds[..i + 1], newUnitNums[..i + 1], api.newer60)
          == DiskAdditions(adds[..i], newUnitNums[..i], api.newer60) + [Create(CreateFile, nd.policy, vd)];
    }
    assert adds[..newDisks.Length] == adds && newUnitNums[..newDisks.Length] == newUnitNums;
  }

  // ----- Cards -----

  predicate RemovesCard(remove: seq<int>, d: Device) {
    d.kind.Card? && d.key in remove
  }

  function NicRemovals(devices: seq<Device>, remove: seq<int>): seq<Entry> {
    if devices == [] then [] else
    var n := |devices| - 1;
    NicRemovals(devices[..n], remove)
    + if RemovesCard(remove, devices[n]) then [Touch(Remove, NoFile, None, n)] else []
  }

  method RemoveNic(nics: seq<int>, devices: array<Device>, change: seq<Entry>) returns (changed: seq<Entry>)
    ensures changed == change + NicRemovals(devices[..], nics)
  {
    changed := change;
    if |nics| == 0 {
      NothingToRemove(devices[..]);
      return;
    }
    for i := 0 to devices.Length
      invariant changed == change + NicRemovals(devices[..i], nics)
    {
      assert devices[..i + 1][..i] == devices[..i];
      if devices[i].kind.Card? && devices[i].key in nics {
        changed := changed + [Touch(Remove, NoFile, None, i)];
      }
    }
    assert devices[..devices.Length] == devices[..];
  }

  /** Whether an edit changes the card as it is now. */
  predicate ChangesCard(d: Device, e: EditNicParameter) {
    e.networkID.Some? || (e.mac.Some? && e.mac.value != d.mac)
  }

  /** One edit of one card record. */
  function EditedCard(d: Device, e: EditNicParameter, networks: map<string, string>): Device
    requires e.networkID.Some? ==> e.networkID.value in networks
  {
    var moved := if e.networkID.None? then d else
      d.(backing := CardBacking(e.networkID.value, networks[e.networkID.value]));
    if e.mac.Some? && e.mac.value != d.mac then moved.(addressType := MAC_TYPE_MANUAL, mac := e.mac.value)
    else moved
  }

  predicate CardEditPossible(devices: seq<Device>, e: EditNicParameter, networks: map<string, string>) {
    IndexOf(devices, Card, e.key).Some? && (e.networkID.Some? ==> e.networkID.value in networks)
  }

  /** Every edit names a card and, if it names a network, one that exists. */
  predicate CardEditsPossible(devices: seq<Device>, edits: seq<EditNicParameter>, networks: map<string, string>) {
    forall e :: e in edits ==> CardEditPossible(devices, e, networks)
  }

  function EditCards(devices: seq<Device>, edits: seq<EditNicParameter>,
    networks: map<string, string>): (r: seq<Device>)
    requires AllValid(devices) && CardEditsPossible(devices, edits, networks)
    ensures |r| == |devices| && AllValid(r)
    ensures forall i :: 0 <= i < |r| ==>
      r[i].kind == devices[i].kind && r[i].key == devices[i].key && r[i].unit == devices[i].unit
  {
    if edits == [] then devices else
    var n := |edits| - 1;
    assert edits[n] in edits;
    var before := EditCards(devices, edits[..n], networks);
    var i := IndexOf(devices, Card, edits[n].key).value;
    before[i := EditedCard(before[i], edits[n], networks)]
  }

  function NicEdits(devices: seq<Device>, edits: seq<EditNicParameter>, networks: map<string, string>): seq<Entry>
    requires AllValid(devices) && CardEditsPossible(devices, edits, networks)
  {
    if edits == [] then [] else
    var n := |edits| - 1;
    assert edits[n] in edits;
    var now := EditCards(devices, edits[..n], networks);
    var i := IndexOf(devices, Card, edits[n].key).value;
    NicEdits(devices, edits[..n], networks)
    + if ChangesCard(now[i], edits[n]) then [Touch(Edit, NoFile, None, i)] else []
  }

  /** One more edit. */
  lemma {:induction false} EditCardsStep(devices: seq<Device>, edits: seq<EditNicParameter>,
    networks: map<string, string>, j: nat)
    requires j < |edits| && AllValid(devices) && CardEditsPossible(devices, edits[..j], networks)
    requires CardEditPossible(devices, edits[j], networks)
    ensures CardEditsPossible(devices, edits[..j + 1], networks)
    ensures var before := EditCards(devices, edits[..j], networks);
      var i := IndexOf(devices, Card, edits[j].key).value;
      && EditCards(devices, edits[..j + 1], networks) == before[i := EditedCard(before[i], edits[j], networks)]
      && NicEdits(devices, edits[..j + 1], networks)
           == if ChangesCard(before[i], edits[j])
              then NicEdits(devices, edits[..j], networks) + [Touch(Edit, NoFile, None, i)]
              else NicEdits(devices, edits[..j], networks)
  {
    assert edits[..j + 1][..j] == edits[..j] && edits[..j + 1] == edits[..j] + [edits[j]];
  }

  method EditOneCard(api: Api, nic: EditNicParameter, devices: array<Device>, at: nat) returns (hasChanged: bool)
    requires nic.networkID.Some? ==> nic.networkID.value in api.networks
    requires at < devices.Length
    modifies devices
    ensures devices[..] == old(devices[..])[at := EditedCard(old(devices[at]), nic, api.networks)]
    ensures hasChanged <==> ChangesCard(old(devices[at]), nic)
  {
    var card := devices[at];
    hasChanged := false;
    if nic.networkID.Some? {
      card := card.(backing := CardBacking(nic.networkID.value, api.networks[nic.networkID.value]));
      hasChanged := true;
    }
    if nic.mac.Some? && card.mac != nic.mac.value {
      card := card.(addressType := MAC_TYPE_MANUAL, mac := nic.mac.value);
      hasChanged := true;
    }
    devices[at] := card;
  }

  method EditNic(api: Api, nics: seq<EditNicParameter>, devices: array<Device>, change: seq<Entry>)
    returns (fault: Fault, changed: seq<Entry>)
    requires AllValid(devices[..])
    modifies devices
    ensures AllValid(old(devices[..]))
    ensures fault == if CardEditsPossible(old(devices[..]), nics, api.networks) then NoFault else Failed
    ensures fault.NoFault? ==> devices[..] == EditCards(old(devices[..]), nics, api.networks)
    ensures fault.NoFault? ==> changed == change + NicEdits(old(devices[..]), nics, api.networks)
  {
    fault, changed := NoFault, change;
    var cardMap := BuildKeyMap(devices, Card);
    ghost var was := devices[..];
    var j := 0;
    while j < |nics| && fault.NoFault?
      invariant 0 <= j <= |nics| && AllValid(was)
      invariant fault.NoFault? ==> CardEditsPossible(was, nics[..j], api.networks)
      invariant fault.NoFault? ==> devices[..] == EditCards(was, nics[..j], api.networks)
      invariant fault.NoFault? ==> changed == change + NicEdits(was, nics[..j], api.networks)
      invariant !fault.NoFault? ==> fault.Failed? && j < |nics| && !CardEditPossible(was, nics[j], api.networks)
      decreases |nics| - j, fault.NoFault?
    {
      var nic := nics[j];
      if nic.key !in cardMap || (nic.networkID.Some? && nic.networkID.value !in api.networks) {
        fault := Failed;
      } else {
        EditCardsStep(was, nics, api.networks, j);
        var at := cardMap[nic.key];
        var hasChanged := EditOneCard(api, nic, devices, at);
        ghost var done := NicEdits(was, nics[..j], api.networks);
        if hasChanged {
          changed := changed + [Touch(Edit, NoFile, None, at)];
          Associate(change, done, [Touch(Edit, NoFile, None, at)]);
        }
        j := j + 1;
      }
    }
    assert nics[..|nics|] == nics;
  }

  /** The record of a new card. */
  function NewCard(a: AddNicParameter, unit: int, networks: map<string, string>): Device
    requires a.networkID in networks
  {
    Device(Card, 0, Some(unit), 0, 0, CardBacking(a.networkID, networks[a.networkID]),
      if a.addressType == Some(MAC_TYPE_MANUAL) then a.mac.GetOr("") else "", a.addressType.GetOr(""))
  }

  predicate CardsPossible(adds: seq<AddNicParameter>, api: Api) {
    forall a :: a in adds ==>
      a.networkID in api.networks && a.adapterType.Some? && a.adapterType.value in api.adapterTypes
  }

  function NicAdditions(adds: seq<AddNicParameter>, units: seq<int>, api: Api): seq<Entry>
    requires |units| == |adds| && CardsPossible(adds, api)
  {
    seq(|adds|, i requires 0 <= i < |adds| =>
      assert adds[i] in adds;
      Create(NoFile, None, NewCard(adds[i], units[i], api.networks)))
  }

  function NumberNics(adds: seq<AddNicParameter>, units: seq<int>): seq<AddNicParameter>
    requires |units| == |adds|
  {
    seq(|adds|, i requires 0 <= i < |adds| => adds[i].(unitNumber := Some(units[i])))
  }

  method AddNic(api: Api, nics: array<AddNicParameter>, devices: array<Device>, change: seq<Entry>)
    returns (fault: Fault, changed: seq<Entry>)
    requires devices.Length + nics.Length + 9 <= MAX_INT32
    modifies nics
    ensures fault == if CardsPossible(old(nics[..]), api) then NoFault else Failed
    ensures fault.NoFault? ==>
      var units := FreshUnits(devices[..], "nic", nics.Length);
      && changed == change + NicAdditions(old(nics[..]), units, api)
      && nics[..] == NumberNics(old(nics[..]), units)
  {
    fault, changed := NoFault, change;
    if nics.Length == 0 {
      return;
    }
    ghost var adds := nics[..];
    var newUnitNums := GenerateUnitNum(devices, "nic", nics.Length);
    for i := 0 to nics.Length
      invariant CardsPossible(adds[..i], api)
      invariant changed == change + NicAdditions(adds[..i], newUnitNums[..i], api)
      invariant forall j :: 0 <= j < i ==> nics[j] == adds[j].(unitNumber := Some(newUnitNums[j]))
      invariant forall j :: i <= j < nics.Length ==> nics[j] == adds[j]
    {
      var nic := nics[i];
      assert adds[i] in adds;
      assert adds[..i + 1] == adds[..i] + [nic];
      if nic.networkID !in api.networks {
        return Failed, changed;
      }
      if nic.adapterType.None? {
        return Failed, changed;
      }
      if nic.adapterType.value !in api.adapterTypes {
        return Failed, changed;
      }
      var card := NewCard(nic, newUnitNums[i], api.networks);
      nics[i] := nic.(unitNumber := card.unit);
      changed := changed + [Create(NoFile, None, card)];
      assert NicAdditions(adds[..i + 1], newUnitNums[..i + 1], api)
          == NicAdditions(adds[..i], newUnitNums[..i], api) + [Create(NoFile, None, card)];
    }
    assert adds[..nics.Length] == adds && newUnitNums[..nics.Length] == newUnitNums;
  }

  // ----- The whole change list -----

  function DiskValues(p: Option<DiskParameter>): Option<DiskRequest>
    reads if p.Some? then {p.value.add} else {}
  {
    if p.None? then None else Some(DiskRequest(p.value.add[..], p.value.edit, p.value.remove))
  }

  function NicValues(p: Option<NicParameter>): Option<NicRequest>
    reads if p.Some? then {p.value.add} else {}
  {
    if p.None? then None else Some(NicRequest(p.value.add[..], p.value.edit, p.value.remove))
  }

  /** A compiled request: how the compiler ends, the entries, and the edited device records. */
  datatype Compiled = Compiled(fault: Fault, entries: seq<Entry>, devices: seq<Device>)

  predicate SameIdentity(a: seq<Device>, b: seq<Device>) {
    |a| == |b| && forall i :: 0 <= i < |a| ==> a[i].kind == b[i].kind && a[i].key == b[i].key && a[i].unit == b[i].unit
  }

  function CompileDisk(api: Api, devices: seq<Device>, p: Option<DiskRequest>): (r: Compiled)
    requires AllValid(devices)
    ensures AllValid(r.devices)
  {
    if p.None? then Compiled(NoFault, [], devices) else
    var p := p.value;
    var edited := EditDisks(devices, p.edit, api.newer60);
    var fault := AddDiskFault(p.add, edited);
    if !fault.NoFault? then Compiled(fault, [], edited) else
    Compiled(NoFault,
      DiskRemovals(devices, p.remove) + DiskEdits(devices, p.edit)
        + DiskAdditions(p.add, FreshUnits(edited, "disk", |p.add|), api.newer60),
      edited)
  }

  predicate HasCard(devices: seq<Device>) {
    exists d :: d in devices && d.kind.Card?
  }

  /** A machine without a card gets no card: the request is dropped without an error
      (virtual_machine_reconfig.go:480-483). */
  function CompileNic(api: Api, devices: seq<Device>, p: Option<NicRequest>): (r: Compiled)
    requires AllValid(devices)
    ensures AllValid(r.devices)
  {
    if p.None? || !HasCard(devices) then Compiled(NoFault, [], devices) else
    var p := p.value;
    if !CardEditsPossible(devices, p.edit, api.networks) then Compiled(Failed, [], devices) else
    var edited := EditCards(devices, p.edit, api.networks);
    if !CardsPossible(p.add, api) then Compiled(Failed, [], edited) else
    Compiled(NoFault,
      NicRemovals(devices, p.remove) + NicEdits(devices, p.edit, api.networks)
        + NicAdditions(p.add, FreshUnits(edited, "nic", |p.add|), api),
      edited)
  }

  /** Disks first, then cards, over the same records. */
  function Compile(api: Api, devices: seq<Device>, disk: Option<DiskRequest>, nic: Option<NicRequest>): (r: Compiled)
    requires AllValid(devices)
    ensures AllValid(r.devices)
  {
    var first := CompileDisk(api, devices, disk);
    if !first.fault.NoFault? then first else
    var second := CompileNic(api, first.devices, nic);
    Compiled(second.fault, first.entries + second.entries, second.devices)
  }

  lemma AppendThree(change: seq<Entry>, a: seq<Entry>, b: seq<Entry>, c: seq<Entry>)
    ensures change + a + b + c == change + (a + b + c)
  {
  }

  method ParseReconfigureDisk(api: Api, p: Option<DiskParameter>, devices: array<Device>, change: seq<Entry>)
    returns (fault: Fault, changed: seq<Entry>)
    requires AllValid(devices[..])
    requires p.Some? ==> devices.Length + p.value.add.Length + 9 <= MAX_INT32
    modifies devices, if p.Some? then {p.value.add} else {}
    ensures var c := CompileDisk(api, old(devices[..]), old(DiskValues(p)));
      && fault == c.fault
      && (fault.NoFault? ==> devices[..] == c.devices && changed == change + c.entries)
      && (fault.NoFault? && p.Some? ==>
            var units := FreshUnits(c.devices, "disk", p.value.add.Length);
            p.value.add[..] == NumberDisks(old(p.value.add[..]), units))
  {
    fault, changed := NoFault, change;
    if p.None? {
      return;
    }
    ghost var was := devices[..];
    changed := RemoveDisk(p.value.remove, devices, changed);
    changed := EditDisk(api, p.value.edit, devices, changed);
    fault, changed := AddDisk(api, p.value.add, devices, changed);
    if fault.NoFault? {
      ghost var units := FreshUnits(devices[..], "disk", p.value.add.Length);
      ghost var additions := DiskAdditions(old(p.value.add[..]), units, api.newer60);
      AppendThree(change, DiskRemovals(was, p.value.remove), DiskEdits(was, p.value.edit), additions);
    }
  }

  method ChangeNics(api: Api, p: NicParameter, devices: array<Device>, change: seq<Entry>)
    returns (fault: Fault, changed: seq<Entry>)
    requires AllValid(devices[..]) && HasCard(devices[..])
    requires devices.Length + p.add.Length + 9 <= MAX_INT32
    modifies devices, p.add
    ensures var c := CompileNic(api, old(devices[..]), Some(NicRequest(old(p.add[..]), p.edit, p.remove)));
      && fault == c.fault
      && (fault.NoFault? ==> devices[..] == c.devices && changed == change + c.entries)
      && (fault.NoFault? ==>
            var units := FreshUnits(c.devices, "nic", p.add.Length);
            p.add[..] == NumberNics(old(p.add[..]), units))
  {
    ghost var was, adds := devices[..], p.add[..];
    ghost var removals := NicRemovals(was, p.remove);
    changed := RemoveNic(p.remove, devices, change);
    fault, changed := EditNic(api, p.edit, devices, changed);
    if !fault.NoFault? {
      return;
    }
    ghost var edits, edited := NicEdits(was, p.edit, api.networks), devices[..];
    assert p.add[..] == adds;
    fault, changed := AddNic(api, p.add, devices, changed);
    assert devices[..] == edited;
    if fault.NoFault? {
      ghost var additions := NicAdditions(adds, FreshUnits(edited, "nic", |adds|), api);
      AppendThree(change, removals, edits, additions);
    }
  }

  method ParseReconfigureNic(api: Api, p: Option<NicParameter>, devices: array<Device>, change: seq<Entry>)
    returns (fault: Fault, changed: seq<Entry>)
    requires AllValid(devices[..])
    requires p.Some? ==> devices.Length + p.value.add.Length + 9 <= MAX_INT32
    modifies devices, if p.Some? then {p.value.add} else {}
    ensures var c := CompileNic(api, old(devices[..]), old(NicValues(p)));
      && fault == c.fault
      && (fault.NoFault? ==> devices[..] == c.devices)
      && (fault.NoFault? ==> changed == change + c.entries)
      && (fault.NoFault? && p.Some? && HasCard(old(devices[..])) ==>
            var units := FreshUnits(c.devices, "nic", p.value.add.Length);
            p.value.add[..] == NumberNics(old(p.value.add[..]), units))
      && (p.Some? && !HasCard(old(devices[..])) ==> p.value.add[..] == old(p.value.add[..]))
  {
    fault, changed := NoFault, change;
    if p.None? {
      return;
    }
    var ethernetCards := SelectKind(devices[..], Card);
    if |ethernetCards| == 0 {
      return;
    }
    assert ethernetCards[0] in devices[..];
    fault, changed := ChangeNics(api, p.value, devices, changed);
  }
}
