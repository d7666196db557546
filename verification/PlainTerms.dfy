/** What a request to reconfigure does to a machine, read off the request and the machine alone: none of the
    compiler's own functions appears in what is stated here
    (helper/virtualmachine/virtualmachinereconfig/virtual_machine_reconfig.go:304-734). */
module PlainTerms {
  import opened Wrappers
  import opened Devices
  import opened UnitNumbers
  import opened Reconfiguration
  import opened ReconfigurationMeaning

  // ----- What is gone -----

  /** A device of the machine is gone exactly when its key is asked to be removed and it is a disk other than the
      system disk, or a card. */
  lemma WhatIsGone(api: Api, m: DeviceMap, devices: seq<Device>, disk: Option<DiskRequest>, nic: Option<NicRequest>,
    landings: seq<Landing>, after: DeviceMap, k: int)
    requires ValidMap(m) && FreshLandings(m, landings)
    requires nic.Some? && HasCard(devices) ==> CardsPossible(nic.value.add, api)
    requires |landings| == |NewDevices(api, devices, disk, nic)|
    requires Described(api, m, devices, disk, nic, landings, after)
    requires k in m
    ensures k !in after <==>
      || (disk.Some? && k in disk.value.remove && m[k].kind.Disk? && m[k].unit != Some(0))
      || (nic.Some? && k in nic.value.remove && m[k].kind.Card?)
  {
  }

  /** vCenter takes the list exactly when no key is both removed and changed: an edit changes a disk in any case, a
      card if it gives a network, or an address other than the card's. */
  lemma AcceptedWhen(m: DeviceMap, disk: Option<DiskRequest>, nic: Option<NicRequest>)
    requires ValidMap(m)
    ensures NothingBothRemovedAndTouched(m, disk, nic) <==>
      && (disk.Some? ==> forall k, e :: k in disk.value.remove && e in disk.value.edit && e.key == k ==>
            !(k in m && m[k].kind.Disk? && m[k].unit != Some(0)))
      && (nic.Some? ==> forall k, e :: k in nic.value.remove && e in nic.value.edit && e.key == k ==>
            !(k in m && m[k].kind.Card?) || (e.networkID.None? && (e.mac.None? || e.mac.value == m[k].mac)))
  {
    if NothingBothRemovedAndTouched(m, disk, nic) {
      if disk.Some? {
        forall k, e | k in disk.value.remove && e in disk.value.edit && e.key == k
          ensures !(k in m && m[k].kind.Disk? && m[k].unit != Some(0))
        {
          assert k in m ==> !(Removed(disk, nic, m[k]) && Touched(disk, nic, m[k]));
        }
      }
      if nic.Some? {
        forall k, e | k in nic.value.remove && e in nic.value.edit && e.key == k
          ensures !(k in m && m[k].kind.Card?) || (e.networkID.None? && (e.mac.None? || e.mac.value == m[k].mac))
        {
          assert k in m ==> !(Removed(disk, nic, m[k]) && Touched(disk, nic, m[k]));
        }
      }
    }
  }

  // ----- What edits leave -----

  /** The last of the edits that gives something, and what it gives. */
  function LastGiven<E, T>(edits: seq<E>, given: E -> Option<T>): Option<T> {
    if edits == [] then None else
    var n := |edits| - 1;
    if given(edits[n]).Some? then given(edits[n]) else LastGiven(edits[..n], given)
  }

  lemma {:induction false} LastGivenIsLast<E, T>(edits: seq<E>, given: E -> Option<T>)
    ensures LastGiven(edits, given).None? <==> forall i :: 0 <= i < |edits| ==> given(edits[i]).None?
    ensures LastGiven(edits, given).Some? ==>
      exists i :: 0 <= i < |edits| && given(edits[i]) == LastGiven(edits, given)
                  && forall j :: i < j < |edits| ==> given(edits[j]).None?
  {
    if edits != [] {
      var n := |edits| - 1;
      LastGivenIsLast(edits[..n], given);
      if given(edits[n]).None? && LastGiven(edits, given).Some? {
        var i :| 0 <= i < n && given(edits[..n][i]) == LastGiven(edits[..n], given)
                 && forall j :: i < j < n ==> given(edits[..n][j]).None?;
        assert given(edits[i]) == LastGiven(edits, given);
        assert forall j :: i < j < n ==> given(edits[..n][j]) == given(edits[j]);
      }
    }
  }

  /** Each field of a disk is what the last edit of that disk that gives it gives; sizes are in GiB; the sharing is
      left alone before version 6.0. Nothing else changes. */
  lemma {:induction false} DiskAfterEdits(d: Device, edits: seq<EditDiskParameter>, newer60: bool)
    requires d.backing.DiskBacking?
    ensures
      var size := LastGiven(edits, (e: EditDiskParameter) => if e.key == d.key then e.size else None);
      var mode := LastGiven(edits, (e: EditDiskParameter) => if e.key == d.key then e.mode else None);
      var sharing := LastGiven(edits, (e: EditDiskParameter) => if e.key == d.key then e.sharing else None);
      EditedDiskBy(d, edits, newer60) == d.(
        capacityInKB := if size.Some? then size.value * 1024 * 1024 else d.capacityInKB,
        capacityInBytes := if size.Some? then size.value * 1024 * 1024 * 1024 else d.capacityInBytes,
        backing := DiskBacking(mode.GetOr(d.backing.mode),
          if newer60 then sharing.GetOr(d.backing.sharing) else d.backing.sharing,
          d.backing.format, d.backing.datastore))
  {
    if edits != [] {
      var n := |edits| - 1;
      EditedDiskKeepsIdentity(d, edits[..n], newer60);
      DiskAfterEdits(d, edits[..n], newer60);
      if edits[n].size.Some? {
        CapacityRoundTrip(edits[n].size.value);
      }
    }
  }

  /** A card is on the network of the last edit of that card that gives one, under the network's name, and has the
      last address given; its address counts as manual once an edit has given another than the card's. */
  lemma {:induction false} CardAfterEdits(d: Device, edits: seq<EditNicParameter>, networks: map<string, string>)
    requires d.backing.CardBacking?
    requires forall e :: e in edits && e.key == d.key && e.networkID.Some? ==> e.networkID.value in networks
    ensures
      var network := LastGiven(edits, (e: EditNicParameter) => if e.key == d.key then e.networkID else None);
      var mac := LastGiven(edits, (e: EditNicParameter) => if e.key == d.key then e.mac else None);
      && (network.Some? ==> network.value in networks)
      && EditedCardBy(d, edits, networks) == d.(
           backing := if network.Some? then CardBacking(network.value, networks[network.value]) else d.backing,
           mac := mac.GetOr(d.mac),
           addressType :=
             if exists e :: e in edits && e.key == d.key && e.mac.Some? && e.mac.value != d.mac then "manual"
             else d.addressType)
  {
    if edits != [] {
      var n := |edits| - 1;
      assert edits == edits[..n] + [edits[n]];
      CardAfterEdits(d, edits[..n], networks);
      GivenElsewhere(d, edits, n);
    }
  }

  /** An address other than the card's has been given if the last one given is another, or the n-th edit gives one. */
  lemma GivenElsewhere(d: Device, edits: seq<EditNicParameter>, n: nat)
    requires |edits| == n + 1
    ensures
      var mac := LastGiven(edits[..n], (e: EditNicParameter) => if e.key == d.key then e.mac else None);
      mac.Some? && mac.value != d.mac ==>
        exists e :: e in edits[..n] && e.key == d.key && e.mac.Some? && e.mac.value != d.mac
    ensures (exists e :: e in edits && e.key == d.key && e.mac.Some? && e.mac.value != d.mac) <==>
      || (edits[n].key == d.key && edits[n].mac.Some? && edits[n].mac.value != d.mac)
      || (exists e :: e in edits[..n] && e.key == d.key && e.mac.Some? && e.mac.value != d.mac)
  {
    var given := (e: EditNicParameter) => if e.key == d.key then e.mac else None;
    assert edits == edits[..n] + [edits[n]];
    LastGivenIsLast(edits[..n], given);
    if LastGiven(edits[..n], given).Some? {
      var i :| 0 <= i < n && given(edits[..n][i]) == LastGiven(edits[..n], given)
               && forall j :: i < j < n ==> given(edits[..n][j]).None?;
      assert edits[..n][i] in edits[..n];
    }
  }

  /** So a device that stays is as it was, apart from the edits of its own kind that name it. */
  lemma WhatStays(api: Api, m: DeviceMap, devices: seq<Device>, disk: Option<DiskRequest>, nic: Option<NicRequest>,
    landings: seq<Landing>, after: DeviceMap, k: int)
    requires ValidMap(m) && Lists(m, devices) && k in m && k in after
    requires nic.Some? && HasCard(devices) ==> CardsPossible(nic.value.add, api)
    requires |landings| == |NewDevices(api, devices, disk, nic)|
    requires Described(api, m, devices, disk, nic, landings, after)
    requires nic.Some? && HasCard(devices) ==>
      forall e :: e in nic.value.edit && e.networkID.Some? ==> e.networkID.value in api.networks
    ensures m[k].kind.Disk? && disk.Some? ==>
      var size := LastGiven(disk.value.edit, (e: EditDiskParameter) => if e.key == k then e.size else None);
      var mode := LastGiven(disk.value.edit, (e: EditDiskParameter) => if e.key == k then e.mode else None);
      var sharing := LastGiven(disk.value.edit, (e: EditDiskParameter) => if e.key == k then e.sharing else None);
      && m[k].backing.DiskBacking?
      && after[k] == m[k].(
           capacityInKB := if size.Some? then size.value * 1024 * 1024 else m[k].capacityInKB,
           capacityInBytes := if size.Some? then size.value * 1024 * 1024 * 1024 else m[k].capacityInBytes,
           backing := DiskBacking(mode.GetOr(m[k].backing.mode),
             if api.newer60 then sharing.GetOr(m[k].backing.sharing) else m[k].backing.sharing,
             m[k].backing.format, m[k].backing.datastore))
    ensures m[k].kind.Card? && nic.Some? ==>
      var network := LastGiven(nic.value.edit, (e: EditNicParameter) => if e.key == k then e.networkID else None);
      var mac := LastGiven(nic.value.edit, (e: EditNicParameter) => if e.key == k then e.mac else None);
      && (network.Some? ==> network.value in api.networks)
      && after[k] == m[k].(
           backing := if network.Some? then CardBacking(network.value, api.networks[network.value]) else m[k].backing,
           mac := mac.GetOr(m[k].mac),
           addressType :=
             if exists e :: e in nic.value.edit && e.key == k && e.mac.Some? && e.mac.value != m[k].mac then "manual"
             else m[k].addressType)
    ensures !(m[k].kind.Disk? && disk.Some?) && !(m[k].kind.Card? && nic.Some?) ==> after[k] == m[k]
  {
    assert m[k].key == k;
    if m[k].kind.Disk? && disk.Some? {
      DiskAfterEdits(m[k], disk.value.edit, api.newer60);
    }
    if m[k].kind.Card? && nic.Some? {
      assert m[k] in devices;
      CardAfterEdits(m[k], nic.value.edit, api.networks);
    }
  }

  // ----- New devices -----

  /** The numbers new devices get: from the start on, in increasing order, the numbers no device has, and no number
      left out that could have been taken. */
  ghost predicate FirstFree(devices: seq<Device>, start: int, reserved: set<int>, r: seq<int>) {
    && (forall i :: 0 <= i < |r| ==>
          start <= r[i] && r[i] !in reserved && forall d :: d in devices ==> d.unit != Some(r[i]))
    && (forall i, j :: 0 <= i < j < |r| ==> r[i] < r[j])
    && (forall i, n ::
          0 <= i < |r| && start <= n < r[i] && n !in reserved && (forall d :: d in devices ==> d.unit != Some(n)) ==>
            exists j :: 0 <= j < i && r[j] == n)
  }

  /** Disks start at 1 and never get 7, cards start at 7, anything else would start at 0. */
  lemma FirstFreeNumbers(devices: seq<Device>, cnt: nat)
    ensures forall t :: t != "disk" && t != "nic" ==> FirstFree(devices, 0, {}, FreshUnits(devices, t, cnt))
    ensures FirstFree(devices, 1, {7}, FreshUnits(devices, "disk", cnt))
    ensures FirstFree(devices, 7, {}, FreshUnits(devices, "nic", cnt))
  {
    FirstFreeFrom(devices, "disk", 1, {7}, cnt);
    FirstFreeFrom(devices, "nic", 7, {}, cnt);
    forall t | t != "disk" && t != "nic"
      ensures FirstFree(devices, 0, {}, FreshUnits(devices, t, cnt))
    {
      FirstFreeFrom(devices, t, 0, {}, cnt);
    }
  }

  lemma FirstFreeFrom(devices: seq<Device>, deviceType: string, start: int, reserved: set<int>, cnt: nat)
    requires start == StartUnit(deviceType) && forall n :: n in reserved <==> deviceType == "disk" && n == 7
    ensures FirstFree(devices, start, reserved, FreshUnits(devices, deviceType, cnt))
  {
    var used := TakenUnits(devices, deviceType);
    LeastFreeIsLeast(used, start, cnt);
    forall n
      ensures n in used <==> n in reserved || exists d :: d in devices && d.unit == Some(n)
    {
      UsedUnitsAre(devices, n);
    }
    LeastIsFirst(devices, start, reserved, used, FreshUnits(devices, deviceType, cnt));
  }

  lemma LeastIsFirst(devices: seq<Device>, start: int, reserved: set<int>, used: seq<int>, r: seq<int>)
    requires IsLeastFree(used, start, |r|, r)
    requires forall n :: n in used <==> n in reserved || exists d :: d in devices && d.unit == Some(n)
    ensures FirstFree(devices, start, reserved, r)
  {
    assert forall i :: 0 <= i < |r| ==> r[i] in r;
    forall i, n | 0 <= i < |r| && start <= n < r[i] && n !in used
      ensures exists j :: 0 <= j < i && r[j] == n
    {
      assert n in r;
      var j :| 0 <= j < |r| && r[j] == n;
      assert j < i;
    }
  }

  lemma {:induction false} UsedUnitsAre(devices: seq<Device>, n: int)
    ensures n in UsedUnits(devices) <==> exists d :: d in devices && d.unit == Some(n)
  {
    if devices != [] {
      UsedUnitsAre(devices[..|devices| - 1], n);
      assert devices == devices[..|devices| - 1] + [devices[|devices| - 1]];
    }
  }

  /** The i-th new disk is what the i-th addition asks for, on the datastore vCenter chose, under its number. */
  lemma NewDiskIs(api: Api, m: DeviceMap, devices: seq<Device>, p: DiskRequest, nic: Option<NicRequest>,
    landings: seq<Landing>, after: DeviceMap, i: nat)
    requires ValidMap(m) && Lists(m, devices)
    requires nic.Some? && HasCard(devices) ==> CardsPossible(nic.value.add, api)
    requires |landings| == |NewDevices(api, devices, Some(p), nic)|
    requires Described(api, m, devices, Some(p), nic, landings, after)
    requires i < |p.add|
    ensures i < |landings| && landings[i].key in after
    ensures
      var a := p.add[i];
      var units := FreshUnits(devices, "disk", |p.add|);
      && FirstFree(devices, 1, {7}, units)
      && after[landings[i].key] == Device(
           Disk, landings[i].key, Some(units[i]), a.size * 1024 * 1024, a.size * 1024 * 1024 * 1024,
           DiskBacking(a.mode.GetOr(""), if api.newer60 then a.sharing.GetOr("") else "", a.format,
             landings[i].datastore),
           "", "")
  {
    FirstFreeNumbers(devices, |p.add|);
    CapacityRoundTrip(p.add[i].size);
    assert landings[i].key in LandedKeys(landings);
  }

  /** A machine with a card gets the cards asked for: the i-th one on its network, under the network's name, with the
      address only if it is to be set by hand. */
  lemma NewCardIs(api: Api, m: DeviceMap, devices: seq<Device>, disk: Option<DiskRequest>, p: NicRequest,
    landings: seq<Landing>, after: DeviceMap, i: nat)
    requires ValidMap(m) && Lists(m, devices) && HasCard(devices) && CardsPossible(p.add, api)
    requires |landings| == |NewDevices(api, devices, disk, Some(p))|
    requires Described(api, m, devices, disk, Some(p), landings, after)
    requires i < |p.add|
    ensures p.add[i].networkID in api.networks
    ensures
      var a := p.add[i];
      var at := i + if disk.Some? then |disk.value.add| else 0;
      var units := FreshUnits(devices, "nic", |p.add|);
      && FirstFree(devices, 7, {}, units)
      && at < |landings| && landings[at].key in after
      && after[landings[at].key] == Device(
           Card, landings[at].key, Some(units[i]), 0, 0, CardBacking(a.networkID, api.networks[a.networkID]),
           if a.addressType == Some("manual") then a.mac.GetOr("") else "", a.addressType.GetOr(""))
  {
    FirstFreeNumbers(devices, |p.add|);
    CardPosition(api, devices, disk, p, i);
    var at := i + if disk.Some? then |disk.value.add| else 0;
    assert landings[at].key in LandedKeys(landings);
  }

  lemma CardPosition(api: Api, devices: seq<Device>, disk: Option<DiskRequest>, p: NicRequest, i: nat)
    requires HasCard(devices) && CardsPossible(p.add, api) && i < |p.add|
    ensures p.add[i].networkID in api.networks
    ensures
      var at := i + if disk.Some? then |disk.value.add| else 0;
      && at < |NewDevices(api, devices, disk, Some(p))|
      && NewDevices(api, devices, disk, Some(p))[at]
           == NewCard(p.add[i], FreshUnits(devices, "nic", |p.add|)[i], api.networks)
  {
    assert p.add[i] in p.add;
    var disks, cards := NewDisks(devices, disk, api.newer60), NewCards(devices, Some(p), api);
    assert |disks| == if disk.Some? then |disk.value.add| else 0;
    assert (disks + cards)[|disks| + i] == cards[i];
  }

  /** And there is nothing else: one device for each disk asked for, and for each card if the machine has one. */
  lemma HowManyAreNew(api: Api, m: DeviceMap, devices: seq<Device>, disk: Option<DiskRequest>, nic: Option<NicRequest>)
    requires ValidMap(m) && Lists(m, devices)
    requires nic.Some? && HasCard(devices) ==> CardsPossible(nic.value.add, api)
    ensures |NewDevices(api, devices, disk, nic)| ==
      (if disk.Some? then |disk.value.add| else 0)
      + (if nic.Some? && CardThere(m) then |nic.value.add| else 0)
  {
    HasKind(m, devices);
  }

  lemma HasKind(m: DeviceMap, devices: seq<Device>)
    requires Lists(m, devices)
    ensures HasCard(devices) <==> CardThere(m)
    ensures HasController(devices) <==> ControllerThere(m)
  {
    assert forall d :: d in devices <==> d.key in m && m[d.key] == d by {
      assert forall d :: d in devices ==> exists i :: 0 <= i < |devices| && devices[i] == d;
    }
    assert forall k :: k in m ==> m[k] in devices;
  }

  // ----- When a request fails -----

  ghost predicate ControllerThere(m: DeviceMap) {
    exists k :: k in m && m[k].kind.DiskController?
  }

  ghost predicate CardThere(m: DeviceMap) {
    exists k :: k in m && m[k].kind.Card?
  }

  ghost predicate FormatsKnown(adds: seq<AddDiskParameter>) {
    forall a :: a in adds ==> a.format in ["thin", "flat", "think", "nativeThink"]
  }

  /** Every edit names a card of the machine, and every network and adapter type given exists. */
  ghost predicate CardsInOrder(api: Api, m: DeviceMap, p: NicRequest) {
    && (forall e :: e in p.edit ==>
          && e.key in m && m[e.key].kind.Card? && (e.networkID.Some? ==> e.networkID.value in api.networks))
    && (forall a :: a in p.add ==>
          && a.networkID in api.networks && a.adapterType.Some? && a.adapterType.value in api.adapterTypes)
  }

  /** Disks cannot be added without a controller; an unknown format panics, if it comes to that; cards are only looked
      at on a machine that has one, and then everything asked of them must be in order. */
  lemma EndsWhen(api: Api, m: DeviceMap, devices: seq<Device>, disk: Option<DiskRequest>, nic: Option<NicRequest>)
    requires ValidMap(m) && Lists(m, devices) && AllValid(devices)
    ensures Compile(api, devices, disk, nic).fault.Panicked? <==>
      disk.Some? && disk.value.add != [] && ControllerThere(m) && !FormatsKnown(disk.value.add)
    ensures Compile(api, devices, disk, nic).fault.NoFault? <==>
      && (disk.Some? && disk.value.add != [] ==> ControllerThere(m) && FormatsKnown(disk.value.add))
      && (nic.Some? && CardThere(m) ==> CardsInOrder(api, m, nic.value))
  {
    ListedKeys(m, devices);
    HasKind(m, devices);
    DisksEndWhen(api, devices, disk);
    var first := CompileDisk(api, devices, disk);
    if first.fault.NoFault? {
      DiskShape(api, devices, disk);
      CardsEndWhen(api, m, devices, first.devices, nic);
    }
  }

  lemma DisksEndWhen(api: Api, devices: seq<Device>, disk: Option<DiskRequest>)
    requires AllValid(devices)
    ensures CompileDisk(api, devices, disk).fault.Panicked? <==>
      disk.Some? && disk.value.add != [] && HasController(devices) && !FormatsKnown(disk.value.add)
    ensures CompileDisk(api, devices, disk).fault.NoFault? <==>
      (disk.Some? && disk.value.add != [] ==> HasController(devices) && FormatsKnown(disk.value.add))
  {
    assert forall s: string :: s in FORMATS <==> s in ["thin", "flat", "think", "nativeThink"];
    if disk.Some? {
      SameKindsController(EditDisks(devices, disk.value.edit, api.newer60), devices);
    }
  }

  lemma CardsEndWhen(api: Api, m: DeviceMap, devices: seq<Device>, f: seq<Device>, nic: Option<NicRequest>)
    requires ValidMap(m) && Lists(m, devices) && SameIdentity(f, devices) && AllValid(f)
    ensures !CompileNic(api, f, nic).fault.Panicked?
    ensures CompileNic(api, f, nic).fault.NoFault? <==>
      (nic.Some? && HasCard(devices) ==> CardsInOrder(api, m, nic.value))
  {
    SameKindsHasCard(f, devices);
    if nic.Some? && HasCard(devices) {
      forall e | e in nic.value.edit
        ensures CardEditPossible(f, e, api.networks) <==>
          e.key in m && m[e.key].kind.Card? && (e.networkID.Some? ==> e.networkID.value in api.networks)
      {
        CardIsListed(m, devices, f, e.key);
      }
    }
  }

  lemma SameKindsController(a: seq<Device>, b: seq<Device>)
    requires SameIdentity(a, b)
    ensures HasController(a) <==> HasController(b)
  {
    if HasController(a) {
      var i :| 0 <= i < |a| && a[i].kind.DiskController?;
      assert b[i] in b;
    }
    if HasController(b) {
      var i :| 0 <= i < |b| && b[i].kind.DiskController?;
      assert a[i] in a;
    }
  }

  lemma {:induction false} CardIsListed(m: DeviceMap, devices: seq<Device>, f: seq<Device>, key: int)
    requires ValidMap(m) && Lists(m, devices) && SameIdentity(f, devices)
    ensures IndexOf(f, Card, key).Some? <==> key in m && m[key].kind.Card?
  {
    if key in m && m[key].kind.Card? {
      assert m[key] in devices;
      var i :| 0 <= i < |devices| && devices[i] == m[key];
      assert f[i] in f;
    }
  }

  // ----- Files and storage policies -----

  /** The changes of one operation, in order. */
  function Those(changes: seq<Change>, op: Operation): seq<Change> {
    if changes == [] then [] else
    var n := |changes| - 1;
    Those(changes[..n], op) + if changes[n].op == op then [changes[n]] else []
  }

  lemma {:induction false} ThoseConcat(a: seq<Change>, b: seq<Change>, op: Operation)
    ensures Those(a + b, op) == Those(a, op) + Those(b, op)
  {
    if b == [] {
      assert a + b == a;
    } else {
      assert (a + b)[..|a + b| - 1] == a + b[..|b| - 1];
      ThoseConcat(a, b[..|b| - 1], op);
    }
  }

  lemma {:induction false} ThoseOfOne(changes: seq<Change>, op: Operation, wanted: Operation)
    requires forall i :: 0 <= i < |changes| ==> changes[i].op == op
    ensures Those(changes, wanted) == if wanted == op then changes else []
  {
    if changes != [] {
      ThoseOfOne(changes[..|changes| - 1], op, wanted);
    }
  }

  /** Files are destroyed with removed disks and created with new ones, and nothing else carries a policy but new and
      edited disks. */
  predicate FileAsDue(c: Change) {
    && (c.file.DestroyFile? <==> c.op.Remove? && c.device.kind.Disk?)
    && (c.file.CreateFile? <==> c.op.Add? && c.device.kind.Disk?)
    && (c.profile.Some? ==> !c.op.Remove? && c.device.kind.Disk?)
  }

  predicate FilesAsDue(changes: seq<Change>) {
    forall i :: 0 <= i < |changes| ==> FileAsDue(changes[i])
  }

  /** The edits of the machine's disks, in request order; other keys are skipped. */
  function DisksToEdit(m: DeviceMap, edits: seq<EditDiskParameter>): seq<EditDiskParameter> {
    if edits == [] then [] else
    var n := |edits| - 1;
    DisksToEdit(m, edits[..n]) + if edits[n].key in m && m[edits[n].key].kind.Disk? then [edits[n]] else []
  }

  /** The first of these changes are edits of these disks, in order, each with its policy. */
  predicate EditsCarry(changes: seq<Change>, edits: seq<EditDiskParameter>) {
    |changes| >= |edits| && forall i :: 0 <= i < |edits| ==>
      changes[i].device.kind.Disk? && changes[i].device.key == edits[i].key && changes[i].profile == edits[i].policy
  }

  predicate AddsCarry(changes: seq<Change>, adds: seq<AddDiskParameter>) {
    |changes| >= |adds| && forall i :: 0 <= i < |adds| ==>
      changes[i].device.kind.Disk? && changes[i].profile == adds[i].policy
  }

  /** A part of a list that is all of one operation. */
  predicate AllOf(changes: seq<Change>, op: Operation) {
    FilesAsDue(changes) && forall i :: 0 <= i < |changes| ==> changes[i].op == op
  }

  lemma MoreOf(f: seq<Device>, entries: seq<Entry>, more: seq<Entry>, op: Operation)
    requires Within(entries, |f|) && AllOf(Payload(f, entries), op)
    requires Within(more, |f|) && AllOf(Payload(f, more), op)
    ensures Within(entries + more, |f|) && AllOf(Payload(f, entries + more), op)
    ensures Payload(f, entries + more) == Payload(f, entries) + Payload(f, more)
  {
    PayloadConcat(f, entries, more);
  }

  /** The removals of a request. */
  lemma {:induction false} DiskRemovalFiles(f: seq<Device>, devices: seq<Device>, remove: seq<int>, n: nat)
    requires SameIdentity(f, devices) && n <= |devices|
    ensures Within(DiskRemovals(devices[..n], remove), |f|)
    ensures AllOf(Payload(f, DiskRemovals(devices[..n], remove)), Remove)
  {
    if n > 0 {
      assert devices[..n][..n - 1] == devices[..n - 1];
      DiskRemovalFiles(f, devices, remove, n - 1);
      var more := if RemovesDisk(remove, devices[n - 1]) then [Touch(Remove, DestroyFile, None, n - 1)] else [];
      MoreOf(f, DiskRemovals(devices[..n - 1], remove), more, Remove);
    }
  }

  lemma {:induction false} NicRemovalFiles(f: seq<Device>, devices: seq<Device>, remove: seq<int>, n: nat)
    requires SameIdentity(f, devices) && n <= |devices|
    ensures Within(NicRemovals(devices[..n], remove), |f|)
    ensures AllOf(Payload(f, NicRemovals(devices[..n], remove)), Remove)
  {
    if n > 0 {
      assert devices[..n][..n - 1] == devices[..n - 1];
      NicRemovalFiles(f, devices, remove, n - 1);
      var more := if RemovesCard(remove, devices[n - 1]) then [Touch(Remove, NoFile, None, n - 1)] else [];
      MoreOf(f, NicRemovals(devices[..n - 1], remove), more, Remove);
    }
  }

  /** The edits of a request. */
  lemma {:induction false} DiskEditFiles(m: DeviceMap, f: seq<Device>, devices: seq<Device>,
    edits: seq<EditDiskParameter>)
    requires ValidMap(m) && Lists(m, devices) && SameIdentity(f, devices)
    ensures Within(DiskEdits(devices, edits), |f|)
    ensures var changes := Payload(f, DiskEdits(devices, edits));
      AllOf(changes, Edit) && |changes| == |DisksToEdit(m, edits)| && EditsCarry(changes, DisksToEdit(m, edits))
  {
    if edits != [] {
      var n := |edits| - 1;
      DiskEditFiles(m, f, devices, edits[..n]);
      DiskIsListed(m, devices, edits[n].key);
      var at := IndexOf(devices, Disk, edits[n].key);
      var more := if at.Some? then [Touch(Edit, NoFile, edits[n].policy, at.value)] else [];
      MoreOf(f, DiskEdits(devices, edits[..n]), more, Edit);
    }
  }

  lemma {:induction false} DiskIsListed(m: DeviceMap, devices: seq<Device>, key: int)
    requires ValidMap(m) && Lists(m, devices)
    ensures IndexOf(devices, Disk, key).Some? <==> key in m && m[key].kind.Disk?
  {
    if key in m && m[key].kind.Disk? {
      assert m[key] in devices;
    }
  }

  lemma {:induction false} NicEditFiles(f: seq<Device>, devices: seq<Device>, edits: seq<EditNicParameter>,
    networks: map<string, string>)
    requires SameIdentity(f, devices) && AllValid(devices) && CardEditsPossible(devices, edits, networks)
    ensures Within(NicEdits(devices, edits, networks), |f|)
    ensures AllOf(Payload(f, NicEdits(devices, edits, networks)), Edit)
  {
    if edits != [] {
      var n := |edits| - 1;
      assert edits[n] in edits;
      NicEditFiles(f, devices, edits[..n], networks);
      var at := IndexOf(devices, Card, edits[n].key).value;
      var now := EditCards(devices, edits[..n], networks);
      var more := if ChangesCard(now[at], edits[n]) then [Touch(Edit, NoFile, None, at)] else [];
      MoreOf(f, NicEdits(devices, edits[..n], networks), more, Edit);
    }
  }

  /** One kind's part of a list: removals, edits, additions. */
  lemma PartFiles(f: seq<Device>, a: seq<Entry>, b: seq<Entry>, c: seq<Entry>)
    requires Within(a, |f|) && AllOf(Payload(f, a), Remove)
    requires Within(b, |f|) && AllOf(Payload(f, b), Edit)
    requires Within(c, |f|) && AllOf(Payload(f, c), Add)
    ensures Within(a + b + c, |f|) && FilesAsDue(Payload(f, a + b + c))
    ensures Those(Payload(f, a + b + c), Edit) == Payload(f, b)
    ensures Those(Payload(f, a + b + c), Add) == Payload(f, c)
  {
    PayloadConcat(f, a, b);
    PayloadConcat(f, a + b, c);
    PartThose(Payload(f, a), Payload(f, b), Payload(f, c), Edit);
    PartThose(Payload(f, a), Payload(f, b), Payload(f, c), Add);
  }

  lemma {:induction false} PartThose(a: seq<Change>, b: seq<Change>, c: seq<Change>, op: Operation)
    requires AllOf(a, Remove) && AllOf(b, Edit) && AllOf(c, Add)
    ensures Those(a + b + c, op) == match op case Remove => a case Edit => b case Add => c
  {
    ThoseOfOne(a, Remove, op);
    ThoseOfOne(b, Edit, op);
    ThoseOfOne(c, Add, op);
    ThoseConcat(a, b, op);
    ThoseConcat(a + b, c, op);
  }

  /** The new disks of a request. */
  lemma DiskAdditionFiles(f: seq<Device>, adds: seq<AddDiskParameter>, units: seq<int>, newer60: bool)
    requires |units| == |adds|
    ensures Within(DiskAdditions(adds, units, newer60), |f|)
    ensures var changes := Payload(f, DiskAdditions(adds, units, newer60));
      AllOf(changes, Add) && AddsCarry(changes, adds)
  {
  }

  function EditsOf(disk: Option<DiskRequest>): seq<EditDiskParameter> {
    if disk.Some? then disk.value.edit else []
  }

  function AddsOf(disk: Option<DiskRequest>): seq<AddDiskParameter> {
    if disk.Some? then disk.value.add else []
  }

  lemma {:induction false} DiskFiles(api: Api, m: DeviceMap, devices: seq<Device>, f: seq<Device>,
    disk: Option<DiskRequest>)
    requires ValidMap(m) && Lists(m, devices) && AllValid(devices) && SameIdentity(f, devices)
    requires CompileDisk(api, devices, disk).fault.NoFault?
    ensures Within(CompileDisk(api, devices, disk).entries, |f|)
    ensures var changes := Payload(f, CompileDisk(api, devices, disk).entries);
      && FilesAsDue(changes)
      && EditsCarry(Those(changes, Edit), DisksToEdit(m, EditsOf(disk)))
      && AddsCarry(Those(changes, Add), AddsOf(disk))
  {
    if disk.Some? {
      var p := disk.value;
      var edited := EditDisks(devices, p.edit, api.newer60);
      var a, b := DiskRemovals(devices, p.remove), DiskEdits(devices, p.edit);
      var c := DiskAdditions(p.add, FreshUnits(edited, "disk", |p.add|), api.newer60);
      assert devices[..|devices|] == devices;
      DiskRemovalFiles(f, devices, p.remove, |devices|);
      DiskEditFiles(m, f, devices, p.edit);
      DiskAdditionFiles(f, p.add, FreshUnits(edited, "disk", |p.add|), api.newer60);
      PartFiles(f, a, b, c);
    }
  }

  lemma NicFiles(api: Api, devices: seq<Device>, f: seq<Device>, nic: Option<NicRequest>)
    requires AllValid(devices) && SameIdentity(f, devices)
    requires CompileNic(api, devices, nic).fault.NoFault?
    ensures Within(CompileNic(api, devices, nic).entries, |f|)
    ensures FilesAsDue(Payload(f, CompileNic(api, devices, nic).entries))
  {
    if nic.Some? && HasCard(devices) {
      var p := nic.value;
      var edited := EditCards(devices, p.edit, api.networks);
      var a, b := NicRemovals(devices, p.remove), NicEdits(devices, p.edit, api.networks);
      var c := NicAdditions(p.add, FreshUnits(edited, "nic", |p.add|), api);
      assert devices[..|devices|] == devices;
      NicRemovalFiles(f, devices, p.remove, |devices|);
      NicEditFiles(f, devices, p.edit, api.networks);
      PartFiles(f, a, b, c);
    }
  }

  /** What is submitted destroys the files of the disks it removes and creates those of the disks it adds, and carries
      the policy of every disk it edits or adds, in request order. */
  lemma {:induction false} FilesAndPolicies(api: Api, m: DeviceMap, devices: seq<Device>, disk: Option<DiskRequest>,
    nic: Option<NicRequest>)
    requires ValidMap(m) && Lists(m, devices) && AllValid(devices)
    requires Compile(api, devices, disk, nic).fault.NoFault?
    ensures var c := Compile(api, devices, disk, nic);
      && Within(c.entries, |c.devices|)
      && var changes := Payload(c.devices, c.entries);
         && FilesAsDue(changes)
         && EditsCarry(Those(changes, Edit), DisksToEdit(m, EditsOf(disk)))
         && AddsCarry(Those(changes, Add), AddsOf(disk))
  {
    ListedKeys(m, devices);
    var c := Compile(api, devices, disk, nic);
    var first := CompileDisk(api, devices, disk);
    var second := CompileNic(api, first.devices, nic);
    CompileShape(api, devices, disk, nic);
    DiskShape(api, devices, disk);
    DiskFiles(api, m, devices, c.devices, disk);
    NicFiles(api, first.devices, c.devices, nic);
    PayloadConcat(c.devices, first.entries, second.entries);
    BothParts(Payload(c.devices, first.entries), Payload(c.devices, second.entries), DisksToEdit(m, EditsOf(disk)),
      AddsOf(disk));
  }

  lemma {:induction false} BothParts(a: seq<Change>, b: seq<Change>, edits: seq<EditDiskParameter>,
    adds: seq<AddDiskParameter>)
    requires FilesAsDue(a) && FilesAsDue(b)
    requires EditsCarry(Those(a, Edit), edits) && AddsCarry(Those(a, Add), adds)
    ensures FilesAsDue(a + b)
    ensures EditsCarry(Those(a + b, Edit), edits) && AddsCarry(Those(a + b, Add), adds)
  {
    ThoseConcat(a, b, Edit);
    ThoseConcat(a, b, Add);
  }
}
