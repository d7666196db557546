/** Operations on one machine (vsphere/workerpool/virtual_machine_operator.go). */
module Operator {
  import opened Wrappers
  import opened Devices
  import opened UnitNumbers
  import opened Reconfiguration
  import opened ReconfigurationMeaning
  import opened PlainTerms
  import opened VSphere
  import opened Reconfigurer
  import opened Relocation

  datatype PowerOffOutcome = PowerOffOutcome(shutdown: Attempt, powerOff: Attempt)
  datatype RestartOutcome = RestartOutcome(shutdown: Attempt, powerOff: Attempt, powerOn: Attempt)

  /** Stopping a machine panics: its state cannot be read for the way to stop it that is tried. */
  predicate PowerOffPanics(off: bool, shutdownFirst: bool, o: PowerOffOutcome) {
    || (shutdownFirst && o.shutdown.Unread?)
    || (!(shutdownFirst && (off || o.shutdown.Succeeds())) && o.powerOff.Unread?)
  }

  /** Stopping a machine reports success. */
  predicate PowerOffWorks(off: bool, shutdownFirst: bool, o: PowerOffOutcome) {
    && !PowerOffPanics(off, shutdownFirst, o)
    && (off || (shutdownFirst && o.shutdown.TakesEffect()) || o.powerOff.Succeeds())
  }

  /** The CPU and memory request; a value that is not positive asks for nothing. */
  datatype ReconfigureParameter = ReconfigureParameter(numCPU: int32, coresPerSocket: int32, memoryMB: int32)

  // ----- What a request asks of the machine as it is -----

  predicate AsksCPU(p: ReconfigureParameter) {
    p.numCPU > 0 || p.coresPerSocket > 0
  }

  predicate GrowsCPU(h: Hardware, p: ReconfigureParameter) {
    AsksCPU(p) && p.numCPU > h.numCPU
  }

  predicate ShrinksCPU(h: Hardware, p: ReconfigureParameter) {
    AsksCPU(p) && p.numCPU < h.numCPU
  }

  predicate GrowsMemory(h: Hardware, p: ReconfigureParameter) {
    p.memoryMB > 0 && p.memoryMB > h.memoryMB
  }

  predicate ShrinksMemory(h: Hardware, p: ReconfigureParameter) {
    p.memoryMB > 0 && p.memoryMB < h.memoryMB
  }

  /** The code stops a running machine for this request: it asks for less memory, or for a kind of growth or
      shrinking that has its hot-plug flag set to false. */
  predicate StopsFirst(h: Hardware, p: ReconfigureParameter) {
    || ShrinksMemory(h, p)
    || (GrowsMemory(h, p) && h.memoryHotAdd == Some(false))
    || (GrowsCPU(h, p) && h.cpuHotAdd == Some(false))
    || (ShrinksCPU(h, p) && h.cpuHotRemove == Some(false))
  }

  /** The CPU part is sent only when the cores per socket differ
      (virtual_machine_operator.go:129-142). */
  predicate SendsCPU(h: Hardware, p: ReconfigureParameter) {
    AsksCPU(p) && p.coresPerSocket != h.coresPerSocket
  }

  predicate SendsMemory(h: Hardware, p: ReconfigureParameter) {
    p.memoryMB > 0 && p.memoryMB != h.memoryMB
  }

  function SentSpec(h: Hardware, p: ReconfigureParameter): HardwareSpec {
    HardwareSpec(
      if SendsCPU(h, p) && p.numCPU != h.numCPU then p.numCPU else 0,
      if SendsCPU(h, p) then p.coresPerSocket else 0,
      if SendsMemory(h, p) then p.memoryMB else 0)
  }

  /** What is sent: the CPU part if one of its numbers is asked for and the cores per socket differ, and then the cores
      per socket and a CPU count that differs; memory that is asked for and differs. */
  lemma WhatIsSent(h: Hardware, p: ReconfigureParameter)
    ensures
      var cpu := (p.numCPU > 0 || p.coresPerSocket > 0) && p.coresPerSocket != h.coresPerSocket;
      var memory := p.memoryMB > 0 && p.memoryMB != h.memoryMB;
      && (SendsCPU(h, p) <==> cpu) && (SendsMemory(h, p) <==> memory)
      && SentSpec(h, p).numCPU == (if cpu && p.numCPU != h.numCPU then p.numCPU else 0)
      && SentSpec(h, p).coresPerSocket == (if cpu then p.coresPerSocket else 0)
      && SentSpec(h, p).memoryMB == (if memory then p.memoryMB else 0)
  {
  }

  /** When the code stops a running machine. */
  lemma StopsWhen(h: Hardware, p: ReconfigureParameter)
    ensures StopsFirst(h, p) <==>
      || (p.memoryMB > 0 && p.memoryMB < h.memoryMB)
      || (p.memoryMB > 0 && p.memoryMB > h.memoryMB && h.memoryHotAdd == Some(false))
      || ((p.numCPU > 0 || p.coresPerSocket > 0) && p.numCPU > h.numCPU && h.cpuHotAdd == Some(false))
      || ((p.numCPU > 0 || p.coresPerSocket > 0) && p.numCPU < h.numCPU && h.cpuHotRemove == Some(false))
  {
  }

  /** A completed request leaves the hardware that was asked for, except when it asks for another
      CPU count with the cores per socket unchanged: that CPU count is dropped. */
  lemma RequestIsMet(h: Hardware, p: ReconfigureParameter)
    ensures
      var after := ChangedHardware(h, SentSpec(h, p));
      && (p.numCPU > 0 ==> after.numCPU == p.numCPU)
      && (p.coresPerSocket > 0 ==> after.coresPerSocket == p.coresPerSocket)
      && (p.memoryMB > 0 ==> after.memoryMB == p.memoryMB)
      <==> !(p.numCPU > 0 && p.numCPU != h.numCPU && p.coresPerSocket == h.coresPerSocket)
  {
  }

  /** By the code's own rules a running machine cannot take what is sent: the memory sent is less, or a number sent
      is of a kind of growth or shrinking that has its hot-plug flag set to false. These rules say nothing of the
      cores per socket; what vCenter makes of those is its own affair. */
  predicate CannotTakeRunning(h: Hardware, spec: HardwareSpec) {
    || (spec.memoryMB != 0 && spec.memoryMB < h.memoryMB)
    || (spec.memoryMB != 0 && spec.memoryMB > h.memoryMB && h.memoryHotAdd == Some(false))
    || (spec.numCPU != 0 && spec.numCPU > h.numCPU && h.cpuHotAdd == Some(false))
    || (spec.numCPU != 0 && spec.numCPU < h.numCPU && h.cpuHotRemove == Some(false))
  }

  predicate StopsForMemory(h: Hardware, p: ReconfigureParameter) {
    ShrinksMemory(h, p) || (GrowsMemory(h, p) && h.memoryHotAdd == Some(false))
  }

  predicate StopsForCPU(h: Hardware, p: ReconfigureParameter) {
    (GrowsCPU(h, p) && h.cpuHotAdd == Some(false)) || (ShrinksCPU(h, p) && h.cpuHotRemove == Some(false))
  }

  /** A running machine is stopped whenever it cannot take what is sent. By those rules it is stopped needlessly
      exactly when the only reason is a CPU count that is not sent, because the cores per socket are unchanged, or
      that is not set, while cores per socket are. */
  lemma NeedlessStop(h: Hardware, p: ReconfigureParameter)
    ensures CannotTakeRunning(h, SentSpec(h, p)) ==> StopsFirst(h, p)
    ensures StopsFirst(h, p) && !CannotTakeRunning(h, SentSpec(h, p)) <==>
            StopsForCPU(h, p) && !StopsForMemory(h, p) && (p.coresPerSocket == h.coresPerSocket || p.numCPU == 0)
  {
  }

  /** Two stops those rules do not call for: for memory that could be added running, with a CPU count that is
      dropped, and for cores per socket alone. */
  lemma StoppedForNothing()
    ensures var h, p := Hardware(2, 2, 1024, Some(true), Some(false), None), ReconfigureParameter(4, 2, 2048);
      SentSpec(h, p) == HardwareSpec(0, 0, 2048) && StopsFirst(h, p) && !CannotTakeRunning(h, SentSpec(h, p))
    ensures var h, p := Hardware(2, 2, 1024, None, None, Some(false)), ReconfigureParameter(0, 1, 0);
      SentSpec(h, p) == HardwareSpec(0, 1, 0) && StopsFirst(h, p) && !CannotTakeRunning(h, SentSpec(h, p))
  {
  }

  /** Four CPUs of two cores a socket asked of a machine with two CPUs of two cores a socket:
      nothing is sent, and the call reports success. */
  lemma DroppedCPUCount()
    ensures var h := Hardware(2, 2, 1024, None, None, None);
      var p := ReconfigureParameter(4, 2, 0);
      !SendsCPU(h, p) && !SendsMemory(h, p) && h.numCPU != p.numCPU
  {
  }

  /** A disk to add, and the datastore it asks for; the empty string asks for none. */
  datatype DiskAdd = DiskAdd(datastoreID: string, disk: AddDiskParameter)

  /** vCenter's part: the reconfiguration, whether the disks can be read afterwards, the relocation. */
  datatype ReconfigureDiskOutcome = ReconfigureDiskOutcome(
    reconfigure: ReconfigureOutcome, disksRead: bool, relocate: RelocateOutcome)

  function AddedDisks(add: seq<DiskAdd>): seq<AddDiskParameter> {
    seq(|add|, i requires 0 <= i < |add| => add[i].disk.(unitNumber := None))
  }

  /** The relocations that have to follow: each new disk that asked for a datastore other than the
      one it landed on, with its own key. */
  function Moves(add: seq<DiskAdd>, landings: seq<Landing>): seq<DiskStorageParameter>
    requires |add| <= |landings|
  {
    if add == [] then [] else
    var n := |add| - 1;
    if add[n].datastoreID != "" && add[n].datastoreID != landings[n].datastore
    then Moves(add[..n], landings) + [DiskStorageParameter(landings[n].key, Some(add[n].datastoreID))]
    else Moves(add[..n], landings)
  }

  /** The landings the request wished for: the same keys, on the datastores asked for. */
  function Wished(add: seq<DiskAdd>, landings: seq<Landing>): seq<Landing>
    requires |add| <= |landings|
  {
    seq(|landings|, i requires 0 <= i < |landings| =>
      if i < |add| && add[i].datastoreID != "" then landings[i].(datastore := add[i].datastoreID) else landings[i])
  }

  /** The positions of the disks that ask for a datastore. */
  function Asking(add: seq<DiskAdd>): seq<nat> {
    if add == [] then [] else
    var n := |add| - 1;
    if add[n].datastoreID != "" then Asking(add[..n]) + [n] else Asking(add[..n])
  }

  predicate Below(positions: seq<nat>, n: nat) {
    forall j :: 0 <= j < |positions| ==> positions[j] < n
  }

  /** The relocations that follow for the disks at some positions. */
  function MovesAt(add: seq<DiskAdd>, landings: seq<Landing>, positions: seq<nat>): seq<DiskStorageParameter>
    requires |add| <= |landings| && Below(positions, |add|)
  {
    if positions == [] then [] else
    var n := |positions| - 1;
    var i := positions[n];
    if add[i].datastoreID != landings[i].datastore
    then MovesAt(add, landings, positions[..n]) + [DiskStorageParameter(landings[i].key, Some(add[i].datastoreID))]
    else MovesAt(add, landings, positions[..n])
  }

  lemma {:induction false} MovesAtStep(add: seq<DiskAdd>, landings: seq<Landing>, positions: seq<nat>, j: nat)
    requires |add| <= |landings| && Below(positions, |add|) && j < |positions|
    ensures Below(positions[..j], |add|) && Below(positions[..j + 1], |add|)
    ensures var i := positions[j];
      MovesAt(add, landings, positions[..j + 1]) == MovesAt(add, landings, positions[..j]) +
        if add[i].datastoreID != landings[i].datastore
        then [DiskStorageParameter(landings[i].key, Some(add[i].datastoreID))] else []
  {
    assert positions[..j + 1][..j] == positions[..j];
  }

  lemma {:induction false} AskingWithin(add: seq<DiskAdd>)
    ensures Below(Asking(add), |add|)
    ensures forall j :: 0 <= j < |Asking(add)| ==> add[Asking(add)[j]].datastoreID != ""
  {
    if add != [] {
      AskingWithin(add[..|add| - 1]);
    }
  }

  lemma {:induction false} AskingAre(add: seq<DiskAdd>)
    ensures forall i: nat :: i in Asking(add) <==> i < |add| && add[i].datastoreID != ""
    ensures forall i, j :: 0 <= i < j < |Asking(add)| ==> Asking(add)[i] < Asking(add)[j]
  {
    if add != [] {
      var before := Asking(add[..|add| - 1]);
      AskingAre(add[..|add| - 1]);
      assert forall j :: 0 <= j < |before| ==> before[j] in before;
    }
  }

  lemma {:induction false} MovesAtLonger(add: seq<DiskAdd>, landings: seq<Landing>, n: nat, positions: seq<nat>)
    requires n <= |add| <= |landings| && Below(positions, n)
    ensures MovesAt(add[..n], landings, positions) == MovesAt(add, landings, positions)
  {
    if positions != [] {
      MovesAtLonger(add, landings, n, positions[..|positions| - 1]);
    }
  }

  lemma {:induction false} MovesOfAsking(add: seq<DiskAdd>, landings: seq<Landing>)
    requires |add| <= |landings|
    ensures Below(Asking(add), |add|)
    ensures MovesAt(add, landings, Asking(add)) == Moves(add, landings)
  {
    AskingWithin(add);
    if add != [] {
      var n := |add| - 1;
      AskingWithin(add[..n]);
      MovesOfAsking(add[..n], landings);
      MovesAtLonger(add, landings, n, Asking(add[..n]));
      if add[n].datastoreID != "" {
        assert Asking(add)[..|Asking(add)| - 1] == Asking(add[..n]);
      }
    }
  }

  /** Where the relocations send a disk. */
  lemma {:induction false} TargetOfMoves(add: seq<DiskAdd>, landings: seq<Landing>, key: int, default: string)
    requires |add| <= |landings|
    requires forall i, j :: 0 <= i < j < |landings| ==> landings[i].key != landings[j].key
    ensures var target := TargetOf(Locators(Moves(add, landings)), key, default);
      && (forall i :: 0 <= i < |add| && landings[i].key == key && landings[i].datastore == default ==>
            target == Wished(add, landings)[i].datastore)
      && ((forall i :: 0 <= i < |add| ==> landings[i].key != key) ==> target == default)
  {
    if add != [] {
      var n := |add| - 1;
      TargetOfMoves(add[..n], landings, key, default);
      assert forall i :: 0 <= i < n ==> Wished(add[..n], landings)[i] == Wished(add, landings)[i];
      var before := Moves(add[..n], landings);
      if add[n].datastoreID != "" && add[n].datastoreID != landings[n].datastore {
        var m := Moves(add, landings);
        assert m[..|m| - 1] == before;
        assert Locators(m) == Locators(before) + [DiskLocator(landings[n].key, add[n].datastoreID)];
        var l := Locators(m);
        assert l[..|l| - 1] == Locators(before);
      }
    }
  }

  /** The relocations move the new disks to where they were asked for, and nothing else. */
  lemma {:induction false} RelocationGrantsWishes(api: Api, m0: DeviceMap, o: ReconfigureOutcome, p: DiskRequest,
    add: seq<DiskAdd>, m1: DeviceMap)
    requires Truthful(m0, o, |add|) && p.add == AddedDisks(add)
    requires Reconfigured(api, m0, o, Some(p), None, m1)
    ensures Reconfigured(api, m0, o.(landings := Wished(add, o.landings)), Some(p), None,
              MovedDevices(m1, RelocateSpec(None, Locators(Moves(add, o.landings)))))
  {
    assert |NewDevices(api, o.listing.value, Some(p), None)| == |add|;
    WishesDescribed(api, m0, o.listing.value, o.landings, p, add, m1);
  }

  /** Then every new disk is on the datastore it asked for, and otherwise where it landed. */
  lemma OnceGranted(api: Api, m0: DeviceMap, o: ReconfigureOutcome, p: DiskRequest, add: seq<DiskAdd>, m: DeviceMap)
    requires Truthful(m0, o, |add|) && p.add == AddedDisks(add)
    requires Reconfigured(api, m0, o.(landings := Wished(add, o.landings)), Some(p), None, m)
    ensures forall i :: 0 <= i < |add| ==>
      && o.landings[i].key in m && m[o.landings[i].key].backing.DiskBacking?
      && m[o.landings[i].key].backing.datastore ==
           if add[i].datastoreID != "" then add[i].datastoreID else o.landings[i].datastore
  {
    forall i | 0 <= i < |add|
      ensures
        && o.landings[i].key in m && m[o.landings[i].key].backing.DiskBacking?
        && m[o.landings[i].key].backing.datastore ==
             if add[i].datastoreID != "" then add[i].datastoreID else o.landings[i].datastore
    {
      NewDeviceLands(api, m0, o.(landings := Wished(add, o.landings)), Some(p), None, m, i);
    }
  }

  lemma SameKeys(add: seq<DiskAdd>, datastores: set<string>, o: ReconfigureDiskOutcome)
    requires |add| <= |o.reconfigure.landings|
    ensures var last := LastLandings(add, datastores, o);
      |last| == |o.reconfigure.landings| && forall i :: 0 <= i < |last| ==> last[i].key == o.reconfigure.landings[i].key
  {
  }

  /** Exactly the new disks that asked for another datastore than the one they landed on are moved, each there. */
  lemma {:induction false} WhatMoves(add: seq<DiskAdd>, landings: seq<Landing>, key: int, datastore: string)
    requires |add| <= |landings|
    ensures DiskLocator(key, datastore) in Locators(Moves(add, landings)) <==>
      exists i :: 0 <= i < |add| && landings[i].key == key && add[i].datastoreID == datastore
                  && datastore != "" && datastore != landings[i].datastore
  {
    if add != [] {
      var n := |add| - 1;
      WhatMoves(add[..n], landings, key, datastore);
      LastMove(add, landings);
    }
  }

  lemma {:induction false} LastMove(add: seq<DiskAdd>, landings: seq<Landing>)
    requires add != [] && |add| <= |landings|
    ensures
      var n := |add| - 1;
      Locators(Moves(add, landings)) == Locators(Moves(add[..n], landings)) +
        if add[n].datastoreID != "" && add[n].datastoreID != landings[n].datastore
        then [DiskLocator(landings[n].key, add[n].datastoreID)] else []
  {
    var n := |add| - 1;
    var moves := Moves(add, landings);
    if add[n].datastoreID != "" && add[n].datastoreID != landings[n].datastore {
      assert moves[..|moves| - 1] == Moves(add[..n], landings);
    }
  }

  /** The new disks of a request landed, and nothing was asked of the cards. */
  ghost predicate Landed(api: Api, m0: DeviceMap, devices: seq<Device>, landings: seq<Landing>,
    p: DiskRequest, add: seq<DiskAdd>, m1: DeviceMap)
  {
    && ValidMap(m0) && FreshLandings(m0, landings) && p.add == AddedDisks(add) && |add| <= |landings|
    && |NewDevices(api, devices, Some(p), None)| == |add|
    && Described(api, m0, devices, Some(p), None, landings[..|add|], m1)
  }

  lemma {:induction false} WishesDescribed(api: Api, m0: DeviceMap, devices: seq<Device>, landings: seq<Landing>,
    p: DiskRequest, add: seq<DiskAdd>, m1: DeviceMap)
    requires Landed(api, m0, devices, landings, p, add, m1)
    ensures Described(api, m0, devices, Some(p), None, Wished(add, landings)[..|add|],
              MovedDevices(m1, RelocateSpec(None, Locators(Moves(add, landings)))))
  {
    forall i | 0 <= i < |add|
      ensures var w := Wished(add, landings)[i];
        && w.key in m1
        && MovedDevice(m1[w.key], RelocateSpec(None, Locators(Moves(add, landings))))
             == Land(NewDevices(api, devices, Some(p), None)[i], w)
    {
      NewDiskMoves(api, m0, devices, landings, p, add, m1, i);
    }
    forall k | k in m0 && k in m1
      ensures MovedDevice(m1[k], RelocateSpec(None, Locators(Moves(add, landings)))) ==
        Edited(api, Some(p), None, m0[k])
    {
      OldDeviceStays(api, m0, devices, landings, p, add, m1, k);
    }
    SameDevices(api, m0, devices, p, landings[..|add|], Wished(add, landings)[..|add|],
      RelocateSpec(None, Locators(Moves(add, landings))), m1);
  }

  lemma SameDevices(api: Api, m0: DeviceMap, devices: seq<Device>, p: DiskRequest,
    landings: seq<Landing>, wished: seq<Landing>, spec: RelocateSpec, m1: DeviceMap)
    requires ValidMap(m0) && |landings| == |wished| == |p.add|
    requires forall i :: 0 <= i < |landings| ==> landings[i].key == wished[i].key
    requires Described(api, m0, devices, Some(p), None, landings, m1)
    requires forall i :: 0 <= i < |wished| ==>
      && wished[i].key in m1
      && MovedDevice(m1[wished[i].key], spec) == Land(NewDevices(api, devices, Some(p), None)[i], wished[i])
    requires forall k :: k in m0 && k in m1 ==> MovedDevice(m1[k], spec) == Edited(api, Some(p), None, m0[k])
    ensures Described(api, m0, devices, Some(p), None, wished, MovedDevices(m1, spec))
  {
    assert LandedKeys(wished) == LandedKeys(landings);
  }

  lemma {:induction false} NewDiskMoves(api: Api, m0: DeviceMap, devices: seq<Device>, landings: seq<Landing>,
    p: DiskRequest, add: seq<DiskAdd>, m1: DeviceMap, i: nat)
    requires Landed(api, m0, devices, landings, p, add, m1) && i < |add|
    ensures var w := Wished(add, landings)[i];
      && w.key in m1
      && MovedDevice(m1[w.key], RelocateSpec(None, Locators(Moves(add, landings))))
           == Land(NewDevices(api, devices, Some(p), None)[i], w)
  {
    var taken := landings[..|add|];
    assert taken[i] == landings[i] && taken[i].key in LandedKeys(taken);
    TargetOfMoves(add, landings, landings[i].key, landings[i].datastore);
  }

  lemma {:induction false} OldDeviceStays(api: Api, m0: DeviceMap, devices: seq<Device>, landings: seq<Landing>,
    p: DiskRequest, add: seq<DiskAdd>, m1: DeviceMap, k: int)
    requires Landed(api, m0, devices, landings, p, add, m1) && k in m0 && k in m1
    ensures MovedDevice(m1[k], RelocateSpec(None, Locators(Moves(add, landings)))) == Edited(api, Some(p), None, m0[k])
  {
    EditedKeepsIdentity(api, Some(p), None, m0[k]);
    if m1[k].kind.Disk? {
      TargetOfMoves(add, landings, k, m1[k].backing.datastore);
    }
  }

  function RelocateCalls(id: string, moves: seq<DiskStorageParameter>): seq<Call> {
    if moves == [] then [] else [Call.Relocate(id, RelocateSpec(None, Locators(moves)))]
  }

  predicate MustMove(add: seq<DiskAdd>, landings: seq<Landing>, i: nat)
    requires i < |add| <= |landings|
  {
    add[i].datastoreID != "" && add[i].datastoreID != landings[i].datastore
  }

  /** A disk that must move names a datastore that does not exist. */
  predicate NamesUnknown(add: seq<DiskAdd>, landings: seq<Landing>, datastores: set<string>)
    requires |add| <= |landings|
  {
    exists i :: 0 <= i < |add| && MustMove(add, landings, i) && add[i].datastoreID !in datastores
  }

  lemma NamesUnknownLast(add: seq<DiskAdd>, landings: seq<Landing>, datastores: set<string>)
    requires add != [] && |add| <= |landings|
    ensures var n := |add| - 1;
      NamesUnknown(add, landings, datastores) <==>
        || NamesUnknown(add[..n], landings, datastores)
        || (MustMove(add, landings, n) && add[n].datastoreID !in datastores)
  {
    var n := |add| - 1;
    assert forall i :: 0 <= i < n ==> (MustMove(add[..n], landings, i) <==> MustMove(add, landings, i));
  }

  /** How a disk request ends. */
  ghost function ReconfigureDiskFault(api: Api, m: DeviceMap, add: seq<DiskAdd>, edit: seq<EditDiskParameter>,
    remove: seq<int>,
    datastores: set<string>, o: ReconfigureDiskOutcome): Fault
    requires o.reconfigure.listing.Some? ==> AllValid(o.reconfigure.listing.value)
    requires |add| <= |o.reconfigure.landings|
  {
    var request := Some(DiskRequest(AddedDisks(add), edit, remove));
    var compiled := CompileFault(api, o.reconfigure, request, None);
    if !compiled.NoFault? then compiled
    else if !(NothingBothRemovedAndTouched(m, request, None) && o.reconfigure.task.Done?) then Failed
    else if !o.disksRead && (exists i :: 0 <= i < |add| && add[i].datastoreID != "") then Panicked
    else MovesOutcome(add, o.reconfigure.landings, datastores, o.relocate)
  }

  /** A disk request succeeds exactly when the machine and its devices can be read, disks to add find a controller and
      have a known format, no key is both removed and edited, the reconfiguration is done, the disks can be read
      afterwards if any asked for a datastore, and those that have to move can be, each to a datastore that exists. */
  lemma DiskRequestSucceedsWhen(api: Api, m: DeviceMap, add: seq<DiskAdd>, edit: seq<EditDiskParameter>,
    remove: seq<int>, datastores: set<string>, o: ReconfigureDiskOutcome)
    requires Truthful(m, o.reconfigure, |add|)
    requires o.reconfigure.listing.Some? ==> AllValid(o.reconfigure.listing.value)
    ensures ReconfigureDiskFault(api, m, add, edit, remove, datastores, o).NoFault? <==>
      var landings := o.reconfigure.landings;
        && o.reconfigure.found && o.reconfigure.listing.Some? && o.reconfigure.task.Done?
        && (add != [] ==> ControllerThere(m))
        && (forall i :: 0 <= i < |add| ==> add[i].disk.format in ["thin", "flat", "think", "nativeThink"])
        && (forall k, e :: k in remove && e in edit && e.key == k ==>
              !(k in m && m[k].kind.Disk? && m[k].unit != Some(0)))
        && ((exists i :: 0 <= i < |add| && add[i].datastoreID != "") ==> o.disksRead)
        && ((exists i :: 0 <= i < |add| && add[i].datastoreID != "" && add[i].datastoreID != landings[i].datastore) ==>
              o.relocate.found && o.relocate.disksRead && o.relocate.task.Done?)
        && (forall i :: 0 <= i < |add| && add[i].datastoreID != "" && add[i].datastoreID != landings[i].datastore ==>
              add[i].datastoreID in datastores)
  {
    var request := DiskRequest(AddedDisks(add), edit, remove);
    SubmittedWhen(api, m, o.reconfigure, Some(request), None);
    AcceptedWhen(m, Some(request), None);
    SomeMove(add, o.reconfigure.landings);
    assert forall i :: 0 <= i < |add| ==>
      AddedDisks(add)[i].format == add[i].disk.format && AddedDisks(add)[i] in AddedDisks(add);
    assert AddedDisks(add) == [] <==> add == [];
  }

  lemma {:induction false} SomeMove(add: seq<DiskAdd>, landings: seq<Landing>)
    requires |add| <= |landings|
    ensures Moves(add, landings) != [] <==>
      exists i :: 0 <= i < |add| && add[i].datastoreID != "" && add[i].datastoreID != landings[i].datastore
  {
    if add != [] {
      SomeMove(add[..|add| - 1], landings);
    }
  }

  /** The relocations reach vCenter and take effect there, whatever is reported. */
  ghost predicate MovesTaken(add: seq<DiskAdd>, landings: seq<Landing>, datastores: set<string>, o: RelocateOutcome)
    requires |add| <= |landings|
  {
    && Moves(add, landings) != [] && o.found && o.disksRead && !o.task.Refused?
    && !NamesUnknown(add, landings, datastores)
  }

  /** Where the new disks are in the end: where they were wished if the code got to the relocation and that took
      effect, and otherwise where they landed. */
  ghost function LastLandings(add: seq<DiskAdd>, datastores: set<string>, o: ReconfigureDiskOutcome): seq<Landing>
    requires |add| <= |o.reconfigure.landings|
  {
    if o.reconfigure.task.Done? && o.disksRead && MovesTaken(add, o.reconfigure.landings, datastores, o.relocate)
    then Wished(add, o.reconfigure.landings) else o.reconfigure.landings
  }

  lemma {:induction false} NothingWished(add: seq<DiskAdd>, landings: seq<Landing>)
    requires |add| <= |landings| && Moves(add, landings) == []
    ensures Wished(add, landings) == landings
  {
    if add != [] {
      var n := |add| - 1;
      NothingWished(add[..n], landings);
      assert forall i :: 0 <= i < n ==> Wished(add[..n], landings)[i] == Wished(add, landings)[i];
    }
  }

  /** How the relocations end. */
  ghost function MovesOutcome(add: seq<DiskAdd>, landings: seq<Landing>, datastores: set<string>,
    o: RelocateOutcome): Fault
    requires |add| <= |landings|
  {
    if Moves(add, landings) == [] then NoFault
    else if !o.found || !o.disksRead then Failed
    else if NamesUnknown(add, landings, datastores) then Panicked
    else if o.task.Done? then NoFault
    else Failed
  }

  lemma {:induction false} AskingOrNot(add: seq<DiskAdd>, landings: seq<Landing>)
    requires |add| <= |landings|
    ensures Asking(add) != [] <==> exists i :: 0 <= i < |add| && add[i].datastoreID != ""
    ensures Asking(add) == [] ==> Moves(add, landings) == []
  {
    if add != [] {
      AskingOrNot(add[..|add| - 1], landings);
    }
  }

  /** Every disk to be moved is there, so a relocation goes wrong only over an unknown datastore, and
      then by a nil dereference. */
  lemma {:induction false} MovesFault(m: DeviceMap, add: seq<DiskAdd>, landings: seq<Landing>, datastores: set<string>)
    requires |add| <= |landings|
    requires forall i :: 0 <= i < |add| ==> landings[i].key in m && m[landings[i].key].kind.Disk?
    ensures DisksFault(m, Moves(add, landings), None, datastores)
      == if NamesUnknown(add, landings, datastores) then Panicked else NoFault
    ensures Locators(Moves(add, landings)) == [] <==> Moves(add, landings) == []
  {
    if add != [] {
      var n := |add| - 1;
      MovesFault(m, add[..n], landings, datastores);
      NamesUnknownLast(add, landings, datastores);
      if MustMove(add, landings, n) {
        var moves := Moves(add, landings);
        assert moves[..|moves| - 1] == Moves(add[..n], landings);
      }
    }
  }

  lemma LandedDisks(api: Api, m0: DeviceMap, o: ReconfigureOutcome, p: DiskRequest, m1: DeviceMap)
    requires Truthful(m0, o, |p.add|) && Reconfigured(api, m0, o, Some(p), None, m1)
    ensures forall i :: 0 <= i < |p.add| ==> o.landings[i].key in m1 && m1[o.landings[i].key].kind.Disk?
  {
    forall i | 0 <= i < |p.add| ensures o.landings[i].key in m1 && m1[o.landings[i].key].kind.Disk? {
      NewDeviceLands(api, m0, o, Some(p), None, m1, i);
    }
  }

  /** The disk with the number of the i-th new disk is the i-th new disk. */
  lemma CreatedDisk(api: Api, m0: DeviceMap, o: ReconfigureOutcome, p: DiskRequest, m1: DeviceMap,
    devices: seq<Device>, i: nat, un: int)
    requires Truthful(m0, o, |p.add|) && Reconfigured(api, m0, o, Some(p), None, m1)
    requires ValidMap(m1) && Lists(m1, devices)
    requires i < |p.add| && un == FreshUnits(o.listing.value, "disk", |p.add|)[i]
    ensures exists d :: d in devices && d.kind.Disk? && d.unit == Some(un)
    ensures forall d :: d in devices && d.kind.Disk? && d.unit == Some(un) ==>
      d.key == o.landings[i].key && d.backing.DiskBacking? && d.backing.datastore == o.landings[i].datastore
  {
    var news := NewDevices(api, o.listing.value, Some(p), None);
    assert news[i] == NewDisk(p.add[i], un, api.newer60);
    NewDeviceLands(api, m0, o, Some(p), None, m1, i);
    assert m1[o.landings[i].key] in devices;
    forall d | d in devices && d.kind.Disk? && d.unit == Some(un) ensures d == m1[o.landings[i].key] {
      NewDeviceByUnit(api, m0, o, Some(p), None, m1, i, d.key);
    }
  }

  /** What a map from unit number to disk holds under that number. */
  lemma FoundByUnit(api: Api, m0: DeviceMap, o: ReconfigureOutcome, p: DiskRequest, m1: DeviceMap,
    devices: seq<Device>, byUnit: map<int, Device>, i: nat, un: int)
    requires Truthful(m0, o, |p.add|) && Reconfigured(api, m0, o, Some(p), None, m1)
    requires ValidMap(m1) && Lists(m1, devices)
    requires i < |p.add| && un == FreshUnits(o.listing.value, "disk", |p.add|)[i]
    requires forall u :: u in byUnit ==> byUnit[u] in devices && byUnit[u].kind == Disk && byUnit[u].unit == Some(u)
    requires forall d :: d in devices && d.kind == Disk && d.unit.Some? ==> d.unit.value in byUnit
    ensures un in byUnit && byUnit[un].backing.DiskBacking?
    ensures byUnit[un].key == o.landings[i].key && byUnit[un].backing.datastore == o.landings[i].datastore
  {
    CreatedDisk(api, m0, o, p, m1, devices, i, un);
  }

  /** The map holds, under the number, the disk that landed there. */
  predicate IsNewDisk(byUnit: map<int, Device>, unit: Option<int>, landing: Landing) {
    && unit.Some? && unit.value in byUnit
    && byUnit[unit.value].key == landing.key
    && byUnit[unit.value].backing.DiskBacking? && byUnit[unit.value].backing.datastore == landing.datastore
  }

  class VirtualMachineOperator {
    const vc: VCenter
    const api: Api
    const id: string
    const shutdownFirst: bool

    constructor (vc: VCenter, api: Api, id: string, shutdownFirst: bool)
      ensures this.vc == vc && this.api == api && this.id == id && this.shutdownFirst == shutdownFirst
    {
      this.vc, this.api, this.id, this.shutdownFirst := vc, api, id, shutdownFirst;
    }

    /** Success means the machine is off: the guest shut down, or the hard fallback did it. */
    method PowerOff(o: PowerOffOutcome) returns (fault: Fault)
      requires id in vc.vms
      modifies vc
      ensures id in vc.vms
      ensures fault.Panicked? <==> PowerOffPanics(old(vc.vms[id].power).PoweredOff?, shutdownFirst, o)
      ensures fault.NoFault? <==> PowerOffWorks(old(vc.vms[id].power).PoweredOff?, shutdownFirst, o)
      ensures fault.NoFault? ==> vc.vms[id].power.PoweredOff?
      ensures !fault.NoFault? ==>
        vc.vms[id].power ==
          if (shutdownFirst && o.shutdown.TakesEffect()) || (fault.Failed? && o.powerOff.TakesEffect()) then PoweredOff
          else old(vc.vms[id].power)
      ensures vc.vms == old(vc.vms)[id := old(vc.vms[id]).(power := vc.vms[id].power)]
      ensures
        var running := !old(vc.vms[id].power).PoweredOff?;
        vc.calls == old(vc.calls) +
          (if running && shutdownFirst && o.shutdown.Tried? then [GuestShutdown(id, o.shutdown.call.Done?)] else []) +
          (if running && o.powerOff.Tried? && (shutdownFirst ==> o.shutdown == Tried(Refused))
           then [HardPowerOff(id, o.powerOff.call.Done?)] else [])
      ensures fault.NoFault? <==>
        if !shutdownFirst then o.powerOff.Tried? && (old(vc.vms[id].power).PoweredOff? || o.powerOff.call.Done?)
        else
          && o.shutdown.Tried?
          && (old(vc.vms[id].power).PoweredOff? || o.shutdown.call.Done?
              || (o.powerOff.Tried? && (o.shutdown.call.Lost? || o.powerOff.call.Done?)))
      ensures fault.Panicked? <==>
        if !shutdownFirst then o.powerOff.Unread?
        else
          || o.shutdown.Unread?
          || (!old(vc.vms[id].power).PoweredOff? && !o.shutdown.call.Done? && o.powerOff.Unread?)
    {
      if shutdownFirst {
        fault := vc.Shutdown(id, o.shutdown);
        if !fault.Failed? {
          return;
        }
      }
      fault := vc.PowerOff(id, o.powerOff);
    }

    /** A restart that reports success leaves the machine on, but it went off in between only if one
        of the two ways to stop it took effect: the error of the hard fallback is overwritten. */
    method Restart(o: RestartOutcome) returns (fault: Fault)
      requires id in vc.vms
      modifies vc
      ensures id in vc.vms
      ensures fault.NoFault? ==> vc.vms[id].power.PoweredOn?
      ensures vc.vms == old(vc.vms)[id := old(vc.vms[id]).(power := vc.vms[id].power)]
      ensures fault.Panicked? <==>
        || PowerOffPanics(old(vc.vms[id].power).PoweredOff?, true, PowerOffOutcome(o.shutdown, o.powerOff))
        || o.powerOn.Unread?
      ensures var stopped := old(vc.vms[id].power).PoweredOff? || o.shutdown.TakesEffect() || o.powerOff.TakesEffect();
        && (fault.NoFault? <==>
              !fault.Panicked? && ((!stopped && old(vc.vms[id].power).PoweredOn?) || o.powerOn.Succeeds()))
        && (!stopped && old(vc.vms[id].power).PoweredOn? ==> vc.vms == old(vc.vms))
      ensures
        var running := !old(vc.vms[id].power).PoweredOff?;
        var hard := running && o.shutdown == Tried(Refused);
        var on := old(vc.vms[id].power).PoweredOn? && o.shutdown == Tried(Refused) && o.powerOff == Tried(Refused);
        !fault.Panicked? ==>
          vc.calls == old(vc.calls)
            + (if running then [GuestShutdown(id, o.shutdown.call.Done?)] else [])
            + (if hard then [HardPowerOff(id, o.powerOff.call.Done?)] else [])
            + (if on then [] else [Start(id, o.powerOn.call.Done?)])
    {
      fault := vc.Shutdown(id, o.shutdown);
      if fault.Failed? {
        fault := vc.PowerOff(id, o.powerOff);
      }
      if fault.Panicked? {
        return;
      }
      fault := vc.PowerOn(id, o.powerOn);
    }

    /** Add, edit and remove disks; then move the new disks that landed on another datastore than they
        asked for.  The result is the machine that vCenter would have made by putting each new disk
        where it was asked for in the first place. */
    method ReconfigureDisk(add: seq<DiskAdd>, edit: seq<EditDiskParameter>, remove: seq<int>,
      datastores: set<string>, o: ReconfigureDiskOutcome)
      returns (fault: Fault)
      requires id in vc.vms && Truthful(vc.vms[id].devices, o.reconfigure, |add|)
      requires o.reconfigure.listing.Some? ==>
        AllValid(o.reconfigure.listing.value) && |o.reconfigure.listing.value| + |add| + 9 <= MAX_INT32
      modifies vc
      ensures vc.vms.Keys == old(vc.vms).Keys
      ensures forall k :: k in old(vc.vms) && k != id ==> vc.vms[k] == old(vc.vms)[k]
      ensures fault.NoFault? ==>
        Reconfigured(api, old(vc.vms[id].devices),
          o.reconfigure.(landings := Wished(add, o.reconfigure.landings)),
          Some(DiskRequest(AddedDisks(add), edit, remove)), None, vc.vms[id].devices)
      ensures
        var request := Some(DiskRequest(AddedDisks(add), edit, remove));
        if Taken(api, old(vc.vms[id].devices), o.reconfigure, request, None) then
          && Reconfigured(api, old(vc.vms[id].devices), o.reconfigure.(landings := LastLandings(add, datastores, o)),
               Some(DiskRequest(AddedDisks(add), edit, remove)), None, vc.vms[id].devices)
          && vc.vms[id] == old(vc.vms[id]).(devices := vc.vms[id].devices)
        else vc.vms == old(vc.vms)
      ensures fault.NoFault? ==>
        vc.calls == old(vc.calls) + [Submit(id, old(vc.vms[id].power), HardwareSpec(0, 0, 0))]
          + RelocateCalls(id, Moves(add, o.reconfigure.landings))
      ensures fault == ReconfigureDiskFault(api, old(vc.vms[id].devices), add, edit, remove, datastores, o)
      ensures forall k :: k in old(vc.vms[id].devices) && k !in vc.vms[id].devices ==>
        && k in remove && old(vc.vms[id].devices)[k].kind.Disk? && old(vc.vms[id].devices)[k].unit != Some(0)
      ensures fault.NoFault? ==> forall k :: k in old(vc.vms[id].devices) && k in vc.vms[id].devices ==>
        !(k in remove && old(vc.vms[id].devices)[k].kind.Disk? && old(vc.vms[id].devices)[k].unit != Some(0))
      ensures fault.NoFault? ==> forall i :: 0 <= i < |add| ==>
        var landing := o.reconfigure.landings[i];
        && landing.key in vc.vms[id].devices && vc.vms[id].devices[landing.key].backing.DiskBacking?
        && vc.vms[id].devices[landing.key].backing.datastore ==
             if add[i].datastoreID != "" then add[i].datastoreID else landing.datastore
    {
      var addDisks := new AddDiskParameter[|add|](i requires 0 <= i < |add| => add[i].disk.(unitNumber := None));
      assert addDisks[..] == AddedDisks(add);
      ghost var m0 := vc.vms[id].devices;
      ghost var request := DiskRequest(AddedDisks(add), edit, remove);
      fault := Reconfigurer.Reconfigure(vc, api, id, HardwareSpec(0, 0, 0),
        Some(DiskParameter(addDisks, edit, remove)), None, o.reconfigure);
      if !fault.NoFault? {
        return;
      }
      fault := MoveToWishes(m0, add, edit, remove, addDisks, datastores, o);
      SameKeys(add, datastores, o);
      WhatIsGoneAfter(api, m0, o.reconfigure.(landings := LastLandings(add, datastores, o)), Some(request), None,
        vc.vms[id].devices);
    }

    /** Move the new disks that are not where they should be. */
    method MoveToWishes(ghost m0: DeviceMap, add: seq<DiskAdd>, ghost edit: seq<EditDiskParameter>,
      ghost remove: seq<int>, addDisks: array<AddDiskParameter>, datastores: set<string>, o: ReconfigureDiskOutcome)
      returns (fault: Fault)
      requires id in vc.vms && Truthful(m0, o.reconfigure, |add|) && o.reconfigure.task.Done?
      requires Reconfigured(api, m0, o.reconfigure, Some(DiskRequest(AddedDisks(add), edit, remove)), None,
                 vc.vms[id].devices)
      requires addDisks.Length == |add|
      requires addDisks[..] == NumberDisks(AddedDisks(add), FreshUnits(o.reconfigure.listing.value, "disk", |add|))
      modifies vc
      ensures vc.vms.Keys == old(vc.vms).Keys
      ensures forall k :: k in old(vc.vms) && k != id ==> vc.vms[k] == old(vc.vms)[k]
      ensures vc.vms[id] == old(vc.vms[id]).(devices := vc.vms[id].devices)
      ensures Reconfigured(api, m0, o.reconfigure.(landings := LastLandings(add, datastores, o)),
                Some(DiskRequest(AddedDisks(add), edit, remove)), None, vc.vms[id].devices)
      ensures fault ==
        if !o.disksRead && (exists i :: 0 <= i < |add| && add[i].datastoreID != "") then Panicked
        else MovesOutcome(add, o.reconfigure.landings, datastores, o.relocate)
      ensures fault.NoFault? ==>
        && vc.calls == old(vc.calls) + RelocateCalls(id, Moves(add, o.reconfigure.landings))
        && Reconfigured(api, m0, o.reconfigure.(landings := Wished(add, o.reconfigure.landings)),
             Some(DiskRequest(AddedDisks(add), edit, remove)), None, vc.vms[id].devices)
      ensures fault.NoFault? ==> forall i :: 0 <= i < |add| ==>
        var landing := o.reconfigure.landings[i];
        && landing.key in vc.vms[id].devices && vc.vms[id].devices[landing.key].backing.DiskBacking?
        && vc.vms[id].devices[landing.key].backing.datastore ==
             if add[i].datastoreID != "" then add[i].datastoreID else landing.datastore
    {
      var mayRelocate := MayRelocate(add);
      ghost var m1 := vc.vms[id].devices;
      ghost var request := DiskRequest(AddedDisks(add), edit, remove);
      StaysValid(api, m0, o.reconfigure, Some(request), None, m1);
      AskingOrNot(add, o.reconfigure.landings);
      if |mayRelocate| > 0 && !o.disksRead {
        // No disk was read, so the disk looked up by unit number is nil and is dereferenced.
        return Panicked;
      }
      var relocateDisks := [];
      if |mayRelocate| > 0 {
        relocateDisks := FindMoves(m0, add, edit, remove, addDisks, mayRelocate, o.reconfigure);
      }
      RelocationGrantsWishes(api, m0, o.reconfigure, request, add, m1);
      if relocateDisks == [] {
        NothingWished(add, o.reconfigure.landings);
      }
      fault := SendMoves(add, o.reconfigure.landings, relocateDisks, datastores, o.relocate, m0, request,
        o.reconfigure);
      if fault.NoFault? {
        OnceGranted(api, m0, o.reconfigure, request, add, vc.vms[id].devices);
      }
    }

    /** Send the relocations, if there are any. */
    method SendMoves(ghost add: seq<DiskAdd>, ghost landings: seq<Landing>, relocateDisks: seq<DiskStorageParameter>,
      datastores: set<string>, o: RelocateOutcome,
      ghost m0: DeviceMap, ghost request: DiskRequest, ghost r: ReconfigureOutcome)
      returns (fault: Fault)
      requires id in vc.vms && ValidMap(vc.vms[id].devices)
      requires |add| <= |landings| && relocateDisks == Moves(add, landings)
      requires landings == r.landings && request.add == AddedDisks(add)
      requires Truthful(m0, r, |add|) && Reconfigured(api, m0, r, Some(request), None, vc.vms[id].devices)
      modifies vc
      ensures vc.vms.Keys == old(vc.vms).Keys
      ensures forall k :: k in old(vc.vms) && k != id ==> vc.vms[k] == old(vc.vms)[k]
      ensures fault == MovesOutcome(add, landings, datastores, o)
      ensures fault.NoFault? ==> vc.calls == old(vc.calls) + RelocateCalls(id, Moves(add, landings))
      ensures vc.vms[id] ==
        if MovesTaken(add, landings, datastores, o)
        then old(vc.vms[id]).(devices :=
               MovedDevices(old(vc.vms[id].devices), RelocateSpec(None, Locators(Moves(add, landings)))))
        else old(vc.vms[id])
    {
      LandedDisks(api, m0, r, request, vc.vms[id].devices);
      MovesFault(vc.vms[id].devices, add, landings, datastores);
      NothingSeen(Moves(add, landings), None, datastores);
      if |relocateDisks| > 0 {
        fault := RelocateStorage(vc, datastores, id, StorageParameter(None, relocateDisks), o);
      } else {
        fault := NoFault;
      }
    }

    /** Look up each new disk by its unit number, and keep those that are not where they should be. */
    method FindMoves(ghost m0: DeviceMap, add: seq<DiskAdd>, ghost edit: seq<EditDiskParameter>, ghost remove: seq<int>,
      addDisks: array<AddDiskParameter>, mayRelocate: seq<nat>, ghost o: ReconfigureOutcome)
      returns (relocateDisks: seq<DiskStorageParameter>)
      requires id in vc.vms && Truthful(m0, o, |add|) && mayRelocate == Asking(add)
      requires ValidMap(vc.vms[id].devices)
      requires Reconfigured(api, m0, o, Some(DiskRequest(AddedDisks(add), edit, remove)), None, vc.vms[id].devices)
      requires addDisks.Length == |add|
      requires addDisks[..] == NumberDisks(AddedDisks(add), FreshUnits(o.listing.value, "disk", |add|))
      ensures relocateDisks == Moves(add, o.landings)
    {
      ghost var m1 := vc.vms[id].devices;
      ghost var request := DiskRequest(AddedDisks(add), edit, remove);
      var devices := vc.GetDevices(id);
      var diskUmMap := BuildUnitMap(devices, Disk);
      forall i | 0 <= i < |add|
        ensures IsNewDisk(diskUmMap, addDisks[..][i].unitNumber, o.landings[i])
      {
        FoundByUnit(api, m0, o, request, m1, devices, diskUmMap, i, addDisks[..][i].unitNumber.value);
      }
      relocateDisks := CollectMoves(add, addDisks[..], mayRelocate, diskUmMap, o.landings);
    }

    /** Of the new disks that ask for a datastore, those that are not on it. */
    method CollectMoves(add: seq<DiskAdd>, addDisks: seq<AddDiskParameter>, mayRelocate: seq<nat>,
      diskUmMap: map<int, Device>, ghost landings: seq<Landing>)
      returns (relocateDisks: seq<DiskStorageParameter>)
      requires |add| == |addDisks| && |add| <= |landings| && mayRelocate == Asking(add)
      requires forall i :: 0 <= i < |add| ==> IsNewDisk(diskUmMap, addDisks[i].unitNumber, landings[i])
      ensures relocateDisks == Moves(add, landings)
    {
      relocateDisks := [];
      AskingWithin(add);
      for j := 0 to |mayRelocate|
        invariant relocateDisks == MovesAt(add, landings, mayRelocate[..j])
      {
        MovesAtStep(add, landings, mayRelocate, j);
        var i := mayRelocate[j];
        var disk := diskUmMap[addDisks[i].unitNumber.value];
        if add[i].datastoreID != disk.backing.datastore {
          relocateDisks := relocateDisks + [DiskStorageParameter(disk.key, Some(add[i].datastoreID))];
        }
      }
      assert mayRelocate[..|mayRelocate|] == mayRelocate;
      MovesOfAsking(add, landings);
    }

    method MayRelocate(add: seq<DiskAdd>) returns (mayRelocate: seq<nat>)
      ensures mayRelocate == Asking(add)
      ensures forall i: nat :: i in mayRelocate <==> i < |add| && add[i].datastoreID != ""
      ensures forall i, j :: 0 <= i < j < |mayRelocate| ==> mayRelocate[i] < mayRelocate[j]
    {
      AskingAre(add);
      mayRelocate := [];
      for i := 0 to |add|
        invariant mayRelocate == Asking(add[..i])
      {
        assert add[..i + 1][..i] == add[..i];
        if add[i].datastoreID != "" {
          mayRelocate := mayRelocate + [i];
        }
      }
      assert add[..|add|] == add;
    }

    /** What to send, whether that is anything, and whether a running machine is stopped for it
        (virtual_machine_operator.go:124-176). */
    method Plan(h: Hardware, p: ReconfigureParameter) returns (spec: HardwareSpec, hasChange: bool, stops: bool)
      ensures spec == SentSpec(h, p)
      ensures hasChange <==> SendsCPU(h, p) || SendsMemory(h, p)
      ensures stops <==> StopsFirst(h, p)
    {
      var cpuChanged, memoryChanged, addCPU, removeCPU, addMemory, removeMemory :=
        false, false, false, false, false, false;
      spec := HardwareSpec(0, 0, 0);
      if p.numCPU > 0 || p.coresPerSocket > 0 {
        var cpu := spec;
        if p.numCPU != h.numCPU {
          cpu := cpu.(numCPU := p.numCPU);
          addCPU := p.numCPU > h.numCPU;
          removeCPU := p.numCPU < h.numCPU;
        }
        if p.coresPerSocket != h.coresPerSocket {
          cpu := cpu.(coresPerSocket := p.coresPerSocket);
          cpuChanged := true;
        }
        if cpuChanged {
          spec := cpu;
        }
      }
      if p.memoryMB > 0 && p.memoryMB != h.memoryMB {
        spec := spec.(memoryMB := p.memoryMB);
        addMemory := p.memoryMB > h.memoryMB;
        removeMemory := p.memoryMB < h.memoryMB;
        memoryChanged := true;
      }
      hasChange := cpuChanged || memoryChanged;
      stops := false;
      if addMemory && h.memoryHotAdd.Some? && !h.memoryHotAdd.value {
        stops := true;
      } else if removeMemory {
        stops := true;
      } else if addCPU && h.cpuHotAdd.Some? && !h.cpuHotAdd.value {
        stops := true;
      } else if removeCPU && h.cpuHotRemove.Some? && !h.cpuHotRemove.value {
        stops := true;
      }
    }

    /** Send a change of CPU and memory alone. */
    method SendHardware(spec: HardwareSpec, o: ReconfigureOutcome) returns (fault: Fault)
      requires id in vc.vms && Truthful(vc.vms[id].devices, o, 0)
      requires o.listing.Some? ==> AllValid(o.listing.value) && |o.listing.value| + 9 <= MAX_INT32
      modifies vc
      ensures fault == if o.found && o.listing.Some? && o.task.Done? then NoFault else Failed
      ensures vc.vms ==
        if o.found && o.listing.Some? && !o.task.Refused?
        then old(vc.vms)[id := old(vc.vms[id]).(hardware := ChangedHardware(old(vc.vms[id].hardware), spec))]
        else old(vc.vms)
      ensures vc.calls ==
        if o.found && o.listing.Some? then old(vc.calls) + [Submit(id, old(vc.vms[id].power), spec)] else old(vc.calls)
    {
      ghost var m := vc.vms[id].devices;
      NothingToCompile(m, api, o);
      fault := Reconfigurer.Reconfigure(vc, api, id, spec, None, None, o);
      if Taken(api, m, o, None, None) {
        NothingDescribed(api, m, o, vc.vms[id].devices);
      }
    }

    /** Change CPU and memory.  A running machine is stopped first when the request asks for something it takes to
        need that, which is not always so; it is never started again. */
    method Reconfigure(p: ReconfigureParameter, read: bool, stop: PowerOffOutcome, o: ReconfigureOutcome)
      returns (fault: Fault)
      requires id in vc.vms && Truthful(vc.vms[id].devices, o, 0)
      requires o.listing.Some? ==> AllValid(o.listing.value) && |o.listing.value| + 9 <= MAX_INT32
      modifies vc
      ensures vc.vms.Keys == old(vc.vms).Keys
      ensures forall k :: k in old(vc.vms) && k != id ==> vc.vms[k] == old(vc.vms)[k]
      ensures !read ==> fault.Panicked? && vc.vms == old(vc.vms) && vc.calls == old(vc.calls)
      ensures read && !SendsCPU(old(vc.vms[id].hardware), p) && !SendsMemory(old(vc.vms[id].hardware), p) ==>
        fault.NoFault? && vc.vms == old(vc.vms) && vc.calls == old(vc.calls)
      ensures read && (SendsCPU(old(vc.vms[id].hardware), p) || SendsMemory(old(vc.vms[id].hardware), p)) ==>
        var stops := old(vc.vms[id].power).PoweredOn? && StopsFirst(old(vc.vms[id].hardware), p);
        var submits := (stops ==> PowerOffWorks(false, shutdownFirst, stop)) && o.found && o.listing.Some?;
        && (fault.NoFault? <==> submits && o.task.Done?)
        && (fault.Panicked? <==> stops && PowerOffPanics(false, shutdownFirst, stop))
        && vc.vms[id].hardware ==
             (if submits && !o.task.Refused?
              then ChangedHardware(old(vc.vms[id].hardware), SentSpec(old(vc.vms[id].hardware), p))
              else old(vc.vms[id].hardware))
        && (submits ==> vc.vms[id].power == if stops then PoweredOff else old(vc.vms[id].power))
        && vc.calls == old(vc.calls)
             + (if stops && shutdownFirst && stop.shutdown.Tried?
                then [GuestShutdown(id, stop.shutdown.call.Done?)] else [])
             + (if stops && stop.powerOff.Tried? && (shutdownFirst ==> stop.shutdown == Tried(Refused))
                then [HardPowerOff(id, stop.powerOff.call.Done?)] else [])
             + (if submits
                then [Submit(id, vc.vms[id].power, SentSpec(old(vc.vms[id].hardware), p))] else [])
        && (!stops ==> vc.vms[id].power == old(vc.vms[id].power))
      ensures vc.vms[id].devices == old(vc.vms[id].devices)
      ensures old(vc.calls) <= vc.calls
      ensures forall i :: |old(vc.calls)| <= i < |vc.calls| && vc.calls[i].Submit? ==>
        && vc.calls[i].spec == SentSpec(old(vc.vms[id].hardware), p)
        && (vc.calls[i].power.PoweredOn? ==>
              && !StopsFirst(old(vc.vms[id].hardware), p)
              && !CannotTakeRunning(old(vc.vms[id].hardware), vc.calls[i].spec))
        && (old(vc.vms[id].power).PoweredOn? && StopsFirst(old(vc.vms[id].hardware), p) ==>
              vc.calls[i].power.PoweredOff?)
    {
      if !read {
        return Panicked;
      }
      var h := vc.vms[id].hardware;
      var spec, hasChange, stops := Plan(h, p);
      if !hasChange {
        return NoFault;
      }
      var isPoweredOn := vc.vms[id].power.PoweredOn?;
      var stopFirst := isPoweredOn && stops;
      if stopFirst {
        fault := PowerOff(stop);
        if !fault.NoFault? {
          return;
        }
      }
      NeedlessStop(h, p);
      fault := SendHardware(spec, o);
      if fault.NoFault? && stopFirst && !isPoweredOn {
        // The restart of virtual_machine_operator.go:190-195: a machine is stopped only if it ran.
        assert false;
      }
    }
  }

  /** A request for no disks and no cards leaves the devices as they are. */
  lemma NothingDescribed(api: Api, m: DeviceMap, o: ReconfigureOutcome, after: DeviceMap)
    requires ValidMap(m) && Reconfigured(api, m, o, None, None, after)
    ensures after == m
  {
    assert NewDevices(api, o.listing.value, None, None) == [];
    assert LandedKeys(o.landings[..0]) == {};
    forall k | k in m
      ensures k in after && after[k] == m[k]
    {
      assert !Removed(None, None, m[k]) && Edited(api, None, None, m[k]) == m[k];
    }
    assert after.Keys == m.Keys;
  }

  /** Without disks and cards to change, the compiler has nothing to object to. */
  lemma NothingToCompile(m: DeviceMap, api: Api, o: ReconfigureOutcome)
    requires o.listing.Some? ==> AllValid(o.listing.value)
    ensures CompileFault(api, o, None, None) == if o.found && o.listing.Some? then NoFault else Failed
    ensures NothingBothRemovedAndTouched(m, None, None)
  {
  }
}
