/** What a compiled request does to a machine: the change list of `Reconfiguration.Compile`, carried
    out by vCenter, gives the machine that the request describes. */
module ReconfigurationMeaning {
  import opened Wrappers
  import opened Devices
  import opened UnitNumbers
  import opened Reconfiguration

  // ----- The request, device by device -----

  /** The request removes this device: a named card, or a named disk other than the system disk. */
  predicate Removed(disk: Option<DiskRequest>, nic: Option<NicRequest>, d: Device) {
    || (disk.Some? && RemovesDisk(disk.value.remove, d))
    || (nic.Some? && RemovesCard(nic.value.remove, d))
  }

  /** The request changes this device: it edits the disk, or gives the card a network or an address
      other than the one it has. */
  predicate Touched(disk: Option<DiskRequest>, nic: Option<NicRequest>, d: Device) {
    || (disk.Some? && TouchedDisk(disk.value.edit, d))
    || (nic.Some? && TouchedCard(nic.value.edit, d))
  }

  predicate TouchedDisk(edits: seq<EditDiskParameter>, d: Device) {
    d.kind.Disk? && exists e :: e in edits && e.key == d.key
  }

  predicate TouchedCard(edits: seq<EditNicParameter>, d: Device) {
    d.kind.Card? && exists e :: e in edits && e.key == d.key && ChangesCard(d, e)
  }

  /** The edits of one disk, in order. */
  function EditedDiskBy(d: Device, edits: seq<EditDiskParameter>, newer60: bool): (r: Device)
    requires d.backing.DiskBacking?
    ensures r.backing.DiskBacking?
  {
    if edits == [] then d else
    var n := |edits| - 1;
    var before := EditedDiskBy(d, edits[..n], newer60);
    if edits[n].key == d.key then EditedDisk(before, edits[n], newer60) else before
  }

  /** The edits of one card, in order; an edit that names an unknown network leaves it alone. */
  function EditedCardBy(d: Device, edits: seq<EditNicParameter>, networks: map<string, string>): Device {
    if edits == [] then d else
    var n := |edits| - 1;
    var before := EditedCardBy(d, edits[..n], networks);
    if edits[n].key == d.key && (edits[n].networkID.Some? ==> edits[n].networkID.value in networks)
    then EditedCard(before, edits[n], networks) else before
  }

  function Edited(api: Api, disk: Option<DiskRequest>, nic: Option<NicRequest>, d: Device): Device
    requires ValidDevice(d)
  {
    match d.kind
    case Disk => if disk.Some? then EditedDiskBy(d, disk.value.edit, api.newer60) else d
    case Card => if nic.Some? then EditedCardBy(d, nic.value.edit, api.networks) else d
    case _ => d
  }

  ghost predicate DistinctKeys(devices: seq<Device>) {
    forall i, j :: 0 <= i < j < |devices| ==> devices[i].key != devices[j].key
  }

  // ----- One part of the list at a time -----

  lemma PayloadConcat(devices: seq<Device>, a: seq<Entry>, b: seq<Entry>)
    requires Within(a, |devices|) && Within(b, |devices|)
    ensures Within(a + b, |devices|)
    ensures Payload(devices, a + b) == Payload(devices, a) + Payload(devices, b)
  {
  }

  /** A part that only removes: the keys it removes are `keys`. */
  ghost predicate OnlyRemoves(changes: seq<Change>, keys: set<int>) {
    && AddedDevices(changes) == [] && RemovedKeys(changes) == keys && NamedKeys(changes) == keys
    && Compatible(changes)
    && forall d :: LastEdit(changes, d) == d
  }

  /** The keys of the devices in the first `n` positions that satisfy `p`. */
  function KeysWhere(devices: seq<Device>, p: Device -> bool): set<int> {
    set i | 0 <= i < |devices| && p(devices[i]) :: devices[i].key
  }

  lemma {:induction false} DiskRemovalsRemove(f: seq<Device>, devices: seq<Device>, remove: seq<int>, n: nat)
    requires SameIdentity(f, devices) && DistinctKeys(devices) && n <= |devices|
    ensures Within(DiskRemovals(devices[..n], remove), |devices|)
    ensures OnlyRemoves(Payload(f, DiskRemovals(devices[..n], remove)),
              KeysWhere(devices[..n], d => RemovesDisk(remove, d)))
  {
    if n > 0 {
      DiskRemovalsRemove(f, devices, remove, n - 1);
      assert devices[..n][..n - 1] == devices[..n - 1];
      RemoveOneMore(f, devices, DiskRemovals(devices[..n - 1], remove), d => RemovesDisk(remove, d), DestroyFile,
        n - 1);
    }
  }

  lemma {:induction false} NicRemovalsRemove(f: seq<Device>, devices: seq<Device>, remove: seq<int>, n: nat)
    requires SameIdentity(f, devices) && DistinctKeys(devices) && n <= |devices|
    ensures Within(NicRemovals(devices[..n], remove), |devices|)
    ensures OnlyRemoves(Payload(f, NicRemovals(devices[..n], remove)),
              KeysWhere(devices[..n], d => RemovesCard(remove, d)))
  {
    if n > 0 {
      NicRemovalsRemove(f, devices, remove, n - 1);
      assert devices[..n][..n - 1] == devices[..n - 1];
      RemoveOneMore(f, devices, NicRemovals(devices[..n - 1], remove), d => RemovesCard(remove, d), NoFile, n - 1);
    }
  }

  lemma KeysOneMore(devices: seq<Device>, p: Device -> bool, at: nat)
    requires at < |devices|
    ensures KeysWhere(devices[..at + 1], p)
         == if p(devices[at]) then KeysWhere(devices[..at], p) + {devices[at].key} else KeysWhere(devices[..at], p)
  {
    var longer, shorter := devices[..at + 1], devices[..at];
    assert forall i :: 0 <= i < at ==> longer[i] == shorter[i];
    assert longer[at] == devices[at];
    forall k | k in KeysWhere(shorter, p) ensures k in KeysWhere(longer, p) {
      var i :| 0 <= i < at && p(shorter[i]) && shorter[i].key == k;
      assert p(longer[i]) && longer[i].key == k;
    }
    forall k | k in KeysWhere(longer, p)
      ensures k in KeysWhere(shorter, p) || (p(devices[at]) && k == devices[at].key)
    {
      var i :| 0 <= i <= at && p(longer[i]) && longer[i].key == k;
      assert i < at ==> p(shorter[i]) && shorter[i].key == k;
    }
  }

  lemma RemoveOneMore(f: seq<Device>, devices: seq<Device>, entries: seq<Entry>,
    p: Device -> bool, file: FileOperation, at: nat)
    requires SameIdentity(f, devices) && DistinctKeys(devices) && at < |devices| && Within(entries, |devices|)
    requires OnlyRemoves(Payload(f, entries), KeysWhere(devices[..at], p))
    ensures var more := if p(devices[at]) then entries + [Touch(Remove, file, None, at)] else entries + [];
      && Within(more, |devices|)
      && OnlyRemoves(Payload(f, more), KeysWhere(devices[..at + 1], p))
  {
    var keys := KeysWhere(devices[..at], p);
    KeysOneMore(devices, p, at);
    if p(devices[at]) {
      var more := entries + [Touch(Remove, file, None, at)];
      var changes := Payload(f, more);
      assert changes[..|entries|] == Payload(f, entries);
      assert changes[|entries|] == Change(Remove, file, None, f[at]);
      assert devices[at].key !in keys;
    } else {
      assert entries + [] == entries;
    }
  }

  /** A part that only edits: it names the devices of `touched`, and leaves each of these with the
      record `f` has for it. */
  ghost predicate OnlyEdits(changes: seq<Change>, devices: seq<Device>, f: seq<Device>, touched: set<int>)
    requires |f| == |devices|
  {
    && AddedDevices(changes) == [] && RemovedKeys(changes) == {} && NamedKeys(changes) == touched
    && Compatible(changes)
    && (forall d: Device :: d.key !in touched ==> LastEdit(changes, d) == d)
    && (forall i, d: Device :: 0 <= i < |devices| && devices[i].key in touched && d.key == devices[i].key ==>
          LastEdit(changes, d) == f[i])
  }

  lemma EditOneMore(f: seq<Device>, devices: seq<Device>, entries: seq<Entry>, touched: set<int>,
    profile: Option<string>, at: nat)
    requires SameIdentity(f, devices) && DistinctKeys(devices) && at < |devices| && Within(entries, |devices|)
    requires OnlyEdits(Payload(f, entries), devices, f, touched)
    ensures var more := entries + [Touch(Edit, NoFile, profile, at)];
      && Within(more, |devices|)
      && OnlyEdits(Payload(f, more), devices, f, touched + {devices[at].key})
  {
    var more := entries + [Touch(Edit, NoFile, profile, at)];
    var changes := Payload(f, more);
    assert changes[..|entries|] == Payload(f, entries);
    assert changes[|entries|] == Change(Edit, NoFile, profile, f[at]);
  }

  lemma {:induction false} DiskEditsEdit(f: seq<Device>, devices: seq<Device>, edits: seq<EditDiskParameter>)
    requires SameIdentity(f, devices) && DistinctKeys(devices)
    ensures Within(DiskEdits(devices, edits), |devices|)
    ensures OnlyEdits(Payload(f, DiskEdits(devices, edits)), devices, f,
              KeysWhere(devices, d => TouchedDisk(edits, d)))
  {
    if edits != [] {
      var n := |edits| - 1;
      DiskEditsEdit(f, devices, edits[..n]);
      var touched := KeysWhere(devices, d => TouchedDisk(edits[..n], d));
      var now := KeysWhere(devices, d => TouchedDisk(edits, d));
      assert edits == edits[..n] + [edits[n]];
      match IndexOf(devices, Disk, edits[n].key)
      case None =>
        assert now == touched;
        assert DiskEdits(devices, edits[..n]) + [] == DiskEdits(devices, edits[..n]);
      case Some(i) =>
        assert now == touched + {devices[i].key};
        EditOneMore(f, devices, DiskEdits(devices, edits[..n]), touched, edits[n].policy, i);
    } else {
      assert KeysWhere(devices, d => TouchedDisk(edits, d)) == {};
    }
  }

  lemma TouchedCardsStep(devices: seq<Device>, edits: seq<EditNicParameter>, e: EditNicParameter,
    i: nat, now: Device)
    requires DistinctKeys(devices) && i < |devices| && devices[i].kind.Card? && devices[i].key == e.key
    requires !TouchedCard(edits, devices[i]) ==> now == devices[i]
    ensures var touched := KeysWhere(devices, d => TouchedCard(edits, d));
      KeysWhere(devices, d => TouchedCard(edits + [e], d))
        == if ChangesCard(now, e) then touched + {devices[i].key} else touched
  {
    var touched := KeysWhere(devices, d => TouchedCard(edits, d));
    forall j | 0 <= j < |devices|
      ensures TouchedCard(edits + [e], devices[j]) <==>
        TouchedCard(edits, devices[j]) || (i == j && ChangesCard(devices[i], e))
    {
    }
    assert ChangesCard(now, e) != ChangesCard(devices[i], e) ==> devices[i].key in touched;
  }

  lemma {:induction false} NicEditsEdit(f: seq<Device>, devices: seq<Device>, edits: seq<EditNicParameter>,
    networks: map<string, string>)
    requires SameIdentity(f, devices) && DistinctKeys(devices) && AllValid(devices)
    requires CardEditsPossible(devices, edits, networks)
    ensures Within(NicEdits(devices, edits, networks), |devices|)
    ensures OnlyEdits(Payload(f, NicEdits(devices, edits, networks)), devices, f,
              KeysWhere(devices, d => TouchedCard(edits, d)))
  {
    if edits != [] {
      var n := |edits| - 1;
      assert edits == edits[..n] + [edits[n]];
      assert edits[n] in edits;
      NicEditsEdit(f, devices, edits[..n], networks);
      var before := NicEdits(devices, edits[..n], networks);
      var touched := KeysWhere(devices, d => TouchedCard(edits[..n], d));
      var i := IndexOf(devices, Card, edits[n].key).value;
      var now := EditCards(devices, edits[..n], networks)[i];
      EditCardsByCard(devices, edits[..n], networks, i);
      UntouchedCard(devices[i], edits[..n], networks);
      TouchedCardsStep(devices, edits[..n], edits[n], i, now);
      if ChangesCard(now, edits[n]) {
        EditOneMore(f, devices, before, touched, None, i);
      } else {
        assert before + [] == before;
      }
    } else {
      assert KeysWhere(devices, d => TouchedCard(edits, d)) == {};
    }
  }

  /** A part that only adds. */
  ghost predicate OnlyAdds(changes: seq<Change>, added: seq<Device>) {
    && AddedDevices(changes) == added && RemovedKeys(changes) == {} && NamedKeys(changes) == {}
    && Compatible(changes)
    && forall d :: LastEdit(changes, d) == d
  }

  lemma {:induction false} AdditionsAdd(f: seq<Device>, entries: seq<Entry>, added: seq<Device>)
    requires |entries| == |added|
    requires forall i :: 0 <= i < |added| ==> entries[i].Create? && entries[i].device == added[i]
    ensures Within(entries, |f|)
    ensures OnlyAdds(Payload(f, entries), added)
  {
    if entries != [] {
      var n := |entries| - 1;
      AdditionsAdd(f, entries[..n], added[..n]);
      assert Payload(f, entries)[..n] == Payload(f, entries[..n]);
    }
  }

  // ----- The records after all edits -----

  lemma {:induction false} EditDisksByDisk(devices: seq<Device>, edits: seq<EditDiskParameter>, newer60: bool, i: nat)
    requires AllValid(devices) && DistinctKeys(devices) && i < |devices|
    ensures EditDisks(devices, edits, newer60)[i]
         == if devices[i].kind.Disk? then EditedDiskBy(devices[i], edits, newer60) else devices[i]
  {
    assert ValidDevice(devices[i]);
    if edits != [] {
      var n := |edits| - 1;
      EditDisksByDisk(devices, edits[..n], newer60, i);
      var before := EditDisks(devices, edits[..n], newer60);
      var at := IndexOf(before, Disk, edits[n].key);
      if devices[i].kind.Disk? && devices[i].key == edits[n].key {
        assert before[i] in before;
        assert at.Some? && before[at.value].key == devices[at.value].key;
        assert at == Some(i);
      }
    }
  }

  lemma {:induction false} EditCardsByCard(devices: seq<Device>, edits: seq<EditNicParameter>,
    networks: map<string, string>, i: nat)
    requires AllValid(devices) && DistinctKeys(devices) && i < |devices| && CardEditsPossible(devices, edits, networks)
    ensures EditCards(devices, edits, networks)[i]
         == if devices[i].kind.Card? then EditedCardBy(devices[i], edits, networks) else devices[i]
  {
    if edits != [] {
      var n := |edits| - 1;
      assert edits[n] in edits;
      EditCardsByCard(devices, edits[..n], networks, i);
    }
  }

  lemma {:induction false} UntouchedDisk(d: Device, edits: seq<EditDiskParameter>, newer60: bool)
    requires d.kind.Disk? && ValidDevice(d)
    ensures !TouchedDisk(edits, d) ==> EditedDiskBy(d, edits, newer60) == d
  {
    if edits != [] {
      var n := |edits| - 1;
      assert edits[n] in edits;
      UntouchedDisk(d, edits[..n], newer60);
    }
  }

  lemma {:induction false} UntouchedCard(d: Device, edits: seq<EditNicParameter>, networks: map<string, string>)
    requires d.kind.Card?
    ensures !TouchedCard(edits, d) ==> EditedCardBy(d, edits, networks) == d
  {
    if edits != [] {
      var n := |edits| - 1;
      assert edits[n] in edits;
      UntouchedCard(d, edits[..n], networks);
    }
  }

  // ----- Removals, edits and additions of one kind -----

  /** What the disks or the cards of a request amount to. */
  ghost predicate Amounts(changes: seq<Change>, devices: seq<Device>, f: seq<Device>,
    added: seq<Device>, removed: set<int>, touched: set<int>)
    requires |f| == |devices|
  {
    && AddedDevices(changes) == added
    && RemovedKeys(changes) == removed
    && NamedKeys(changes) == removed + touched
    && (Compatible(changes) <==> removed !! touched)
    && (forall d: Device :: d.key !in touched ==> LastEdit(changes, d) == d)
    && (forall i, d: Device :: 0 <= i < |devices| && devices[i].key in touched && d.key == devices[i].key ==>
          LastEdit(changes, d) == f[i])
  }

  lemma ThreeParts(a: seq<Change>, b: seq<Change>, c: seq<Change>, devices: seq<Device>,
    f: seq<Device>,
    added: seq<Device>, removed: set<int>, touched: set<int>)
    requires |f| == |devices|
    requires OnlyRemoves(a, removed) && OnlyEdits(b, devices, f, touched) && OnlyAdds(c, added)
    ensures Amounts(a + b + c, devices, f, added, removed, touched)
  {
    ConcatChanges(a, b);
    ConcatChanges(a + b, c);
    forall d: Device ensures LastEdit(a + b + c, d) == LastEdit(b, d) {
      ConcatLastEdit(a, b, d);
      ConcatLastEdit(a + b, c, d);
    }
  }

  /** The new disks of a request, with their numbers. */
  function NewDisks(devices: seq<Device>, disk: Option<DiskRequest>, newer60: bool): seq<Device> {
    if disk.None? then [] else
    var adds := disk.value.add;
    var units := FreshUnits(devices, "disk", |adds|);
    seq(|adds|, i requires 0 <= i < |adds| => NewDisk(adds[i], units[i], newer60))
  }

  /** The new cards of a request; a machine without a card gets none. */
  function NewCards(devices: seq<Device>, nic: Option<NicRequest>, api: Api): seq<Device>
    requires nic.Some? && HasCard(devices) ==> CardsPossible(nic.value.add, api)
  {
    if nic.None? || !HasCard(devices) then [] else
    var adds := nic.value.add;
    var units := FreshUnits(devices, "nic", |adds|);
    seq(|adds|, i requires 0 <= i < |adds| =>
      assert adds[i] in adds; NewCard(adds[i], units[i], api.networks))
  }

  lemma {:induction false} SameUnits(a: seq<Device>, b: seq<Device>, deviceType: string, cnt: nat)
    requires SameIdentity(a, b)
    ensures UsedUnits(a) == UsedUnits(b)
    ensures FreshUnits(a, deviceType, cnt) == FreshUnits(b, deviceType, cnt)
  {
    if a != [] {
      SameUnits(a[..|a| - 1], b[..|b| - 1], deviceType, cnt);
    }
  }

  ghost predicate Prepared(devices: seq<Device>, f: seq<Device>) {
    AllValid(devices) && DistinctKeys(devices) && SameIdentity(f, devices)
  }

  function RemovedDisks(devices: seq<Device>, disk: Option<DiskRequest>): set<int> {
    if disk.None? then {} else KeysWhere(devices, d => RemovesDisk(disk.value.remove, d))
  }

  function TouchedDisks(devices: seq<Device>, disk: Option<DiskRequest>): set<int> {
    if disk.None? then {} else KeysWhere(devices, d => TouchedDisk(disk.value.edit, d))
  }

  function RemovedCards(devices: seq<Device>, nic: Option<NicRequest>): set<int> {
    if nic.None? then {} else KeysWhere(devices, d => RemovesCard(nic.value.remove, d))
  }

  function TouchedCards(devices: seq<Device>, nic: Option<NicRequest>): set<int> {
    if nic.None? then {} else KeysWhere(devices, d => TouchedCard(nic.value.edit, d))
  }

  lemma DiskPartOf(api: Api, devices: seq<Device>, f: seq<Device>, p: DiskRequest)
    requires Prepared(devices, f) && CompileDisk(api, devices, Some(p)).fault.NoFault?
    ensures var c := CompileDisk(api, devices, Some(p));
      && SameIdentity(c.devices, devices) && Within(c.entries, |devices|)
      && Amounts(Payload(f, c.entries), devices, f, NewDisks(devices, Some(p), api.newer60),
           KeysWhere(devices, d => RemovesDisk(p.remove, d)), KeysWhere(devices, d => TouchedDisk(p.edit, d)))
  {
    var edited := EditDisks(devices, p.edit, api.newer60);
    SameUnits(edited, devices, "disk", |p.add|);
    var a, b := DiskRemovals(devices, p.remove), DiskEdits(devices, p.edit);
    var c := DiskAdditions(p.add, FreshUnits(edited, "disk", |p.add|), api.newer60);
    assert devices[..|devices|] == devices;
    DiskRemovalsRemove(f, devices, p.remove, |devices|);
    DiskEditsEdit(f, devices, p.edit);
    AdditionsAdd(f, c, NewDisks(devices, Some(p), api.newer60));
    PayloadConcat(f, a, b);
    PayloadConcat(f, a + b, c);
    ThreeParts(Payload(f, a), Payload(f, b), Payload(f, c), devices, f, NewDisks(devices, Some(p), api.newer60),
      KeysWhere(devices, d => RemovesDisk(p.remove, d)), KeysWhere(devices, d => TouchedDisk(p.edit, d)));
  }

  lemma DiskPart(api: Api, devices: seq<Device>, f: seq<Device>, disk: Option<DiskRequest>)
    requires Prepared(devices, f) && CompileDisk(api, devices, disk).fault.NoFault?
    ensures var c := CompileDisk(api, devices, disk);
      && SameIdentity(c.devices, devices) && Within(c.entries, |devices|)
      && Amounts(Payload(f, c.entries), devices, f, NewDisks(devices, disk, api.newer60),
           RemovedDisks(devices, disk), TouchedDisks(devices, disk))
  {
    if disk.Some? {
      DiskPartOf(api, devices, f, disk.value);
    } else {
      NoPart(devices, f);
    }
  }

  lemma CardPartOf(api: Api, devices: seq<Device>, f: seq<Device>, p: NicRequest)
    requires Prepared(devices, f) && HasCard(devices) && CompileNic(api, devices, Some(p)).fault.NoFault?
    ensures CardsPossible(p.add, api)
    ensures var c := CompileNic(api, devices, Some(p));
      && SameIdentity(c.devices, devices) && Within(c.entries, |devices|)
      && Amounts(Payload(f, c.entries), devices, f, NewCards(devices, Some(p), api),
           KeysWhere(devices, d => RemovesCard(p.remove, d)), KeysWhere(devices, d => TouchedCard(p.edit, d)))
  {
    var edited := EditCards(devices, p.edit, api.networks);
    SameUnits(edited, devices, "nic", |p.add|);
    var a, b := NicRemovals(devices, p.remove), NicEdits(devices, p.edit, api.networks);
    var c := NicAdditions(p.add, FreshUnits(edited, "nic", |p.add|), api);
    assert devices[..|devices|] == devices;
    NicRemovalsRemove(f, devices, p.remove, |devices|);
    NicEditsEdit(f, devices, p.edit, api.networks);
    AdditionsAdd(f, c, NewCards(devices, Some(p), api));
    PayloadConcat(f, a, b);
    PayloadConcat(f, a + b, c);
    ThreeParts(Payload(f, a), Payload(f, b), Payload(f, c), devices, f, NewCards(devices, Some(p), api),
      KeysWhere(devices, d => RemovesCard(p.remove, d)), KeysWhere(devices, d => TouchedCard(p.edit, d)));
  }

  lemma NoPart(devices: seq<Device>, f: seq<Device>)
    requires |f| == |devices|
    ensures Amounts(Payload(f, []), devices, f, [], {}, {})
  {
  }

  lemma CardPart(api: Api, devices: seq<Device>, f: seq<Device>, nic: Option<NicRequest>)
    requires Prepared(devices, f) && CompileNic(api, devices, nic).fault.NoFault?
    ensures nic.Some? && HasCard(devices) ==> CardsPossible(nic.value.add, api)
    ensures var c := CompileNic(api, devices, nic);
      && SameIdentity(c.devices, devices) && Within(c.entries, |devices|)
      && Amounts(Payload(f, c.entries), devices, f, NewCards(devices, nic, api),
           RemovedCards(devices, nic), TouchedCards(devices, nic))
  {
    if nic.Some? && HasCard(devices) {
      CardPartOf(api, devices, f, nic.value);
    } else {
      assert RemovedCards(devices, nic) == {} && TouchedCards(devices, nic) == {};
      NoPart(devices, f);
    }
  }

  // ----- The main result -----

  /** The new devices of a request: disks, then cards. */
  function NewDevices(api: Api, devices: seq<Device>, disk: Option<DiskRequest>, nic: Option<NicRequest>): seq<Device>
    requires nic.Some? && HasCard(devices) ==> CardsPossible(nic.value.add, api)
  {
    NewDisks(devices, disk, api.newer60) + NewCards(devices, nic, api)
  }

  /** `after` is the machine that the request describes. */
  ghost predicate Described(api: Api, m: DeviceMap, devices: seq<Device>,
    disk: Option<DiskRequest>, nic: Option<NicRequest>, landings: seq<Landing>, after: DeviceMap)
    requires ValidMap(m)
    requires nic.Some? && HasCard(devices) ==> CardsPossible(nic.value.add, api)
    requires |landings| == |NewDevices(api, devices, disk, nic)|
  {
    && after.Keys == (set k | k in m && !Removed(disk, nic, m[k])) + LandedKeys(landings)
    && (forall k :: k in m && k in after ==> after[k] == Edited(api, disk, nic, m[k]))
    && (forall i :: 0 <= i < |landings| ==>
          after[landings[i].key] == Land(NewDevices(api, devices, disk, nic)[i], landings[i]))
  }

  lemma ListedKeys(m: DeviceMap, devices: seq<Device>)
    requires ValidMap(m) && Lists(m, devices)
    ensures Prepared(devices, devices)
    ensures forall k :: k in m ==> exists i :: 0 <= i < |devices| && devices[i] == m[k] && devices[i].key == k
  {
    forall i | 0 <= i < |devices| ensures ValidDevice(devices[i]) {
      assert devices[i].key in m;
    }
  }

  lemma DiskShape(api: Api, devices: seq<Device>, disk: Option<DiskRequest>)
    requires AllValid(devices) && DistinctKeys(devices) && CompileDisk(api, devices, disk).fault.NoFault?
    ensures var c := CompileDisk(api, devices, disk);
      SameIdentity(c.devices, devices) && Within(c.entries, |devices|) && DistinctKeys(c.devices)
  {
    DiskPart(api, devices, devices, disk);
  }

  lemma CardShape(api: Api, devices: seq<Device>, nic: Option<NicRequest>)
    requires AllValid(devices) && DistinctKeys(devices) && CompileNic(api, devices, nic).fault.NoFault?
    ensures var c := CompileNic(api, devices, nic);
      SameIdentity(c.devices, devices) && Within(c.entries, |devices|)
    ensures nic.Some? && HasCard(devices) ==> CardsPossible(nic.value.add, api)
  {
    CardPart(api, devices, devices, nic);
  }

  lemma SameKindsHasCard(a: seq<Device>, b: seq<Device>)
    requires SameIdentity(a, b)
    ensures HasCard(a) <==> HasCard(b)
  {
    if HasCard(a) {
      var i :| 0 <= i < |a| && a[i].kind.Card?;
      assert b[i] in b;
    }
    if HasCard(b) {
      var i :| 0 <= i < |b| && b[i].kind.Card?;
      assert a[i] in a;
    }
  }

  lemma CompileShape(api: Api, devices: seq<Device>, disk: Option<DiskRequest>,
    nic: Option<NicRequest>)
    requires AllValid(devices) && DistinctKeys(devices) && Compile(api, devices, disk, nic).fault.NoFault?
    ensures var c := Compile(api, devices, disk, nic);
      SameIdentity(c.devices, devices) && Within(c.entries, |c.devices|)
    ensures nic.Some? && HasCard(devices) ==> CardsPossible(nic.value.add, api)
  {
    var first := CompileDisk(api, devices, disk);
    DiskShape(api, devices, disk);
    CardShape(api, first.devices, nic);
    SameKindsHasCard(first.devices, devices);
  }

  /** The record of a device after both sets of edits. */
  lemma FinalRecord(api: Api, devices: seq<Device>, disk: Option<DiskRequest>,
    nic: Option<NicRequest>, i: nat)
    requires AllValid(devices) && DistinctKeys(devices) && Compile(api, devices, disk, nic).fault.NoFault?
    requires i < |devices|
    ensures var f := Compile(api, devices, disk, nic).devices;
      && |f| == |devices|
      && f[i] == Edited(api, disk, nic, devices[i])
      && (!Touched(disk, nic, devices[i]) ==> f[i] == devices[i])
  {
    assert ValidDevice(devices[i]);
    DiskRecord(api, devices, disk, i);
    DiskShape(api, devices, disk);
    var first := CompileDisk(api, devices, disk).devices;
    CardShape(api, first, nic);
    if nic.Some? {
      if HasCard(first) {
        EditCardsByCard(first, nic.value.edit, api.networks, i);
      } else {
        assert first[i] in first;
      }
      if devices[i].kind.Card? {
        UntouchedCard(devices[i], nic.value.edit, api.networks);
      }
    }
  }

  lemma DiskRecord(api: Api, devices: seq<Device>, disk: Option<DiskRequest>, i: nat)
    requires AllValid(devices) && DistinctKeys(devices) && CompileDisk(api, devices, disk).fault.NoFault?
    requires i < |devices|
    ensures var f := CompileDisk(api, devices, disk).devices;
      && ValidDevice(devices[i])
      && |f| == |devices|
      && f[i] == Edited(api, disk, None, devices[i])
      && (!Touched(disk, None, devices[i]) ==> f[i] == devices[i])
  {
    DiskShape(api, devices, disk);
    assert ValidDevice(devices[i]);
    if disk.Some? {
      EditDisksByDisk(devices, disk.value.edit, api.newer60, i);
      if devices[i].kind.Disk? {
        UntouchedDisk(devices[i], disk.value.edit, api.newer60);
      }
    }
  }

  lemma SameKeysWhere(a: seq<Device>, b: seq<Device>, p: Device -> bool)
    requires |a| == |b|
    requires forall i :: 0 <= i < |a| ==> a[i].key == b[i].key && (p(a[i]) <==> p(b[i]))
    ensures KeysWhere(a, p) == KeysWhere(b, p)
  {
  }

  /** The disk edits change nothing about the cards, so the second half sees the same cards. */
  lemma SameCards(api: Api, devices: seq<Device>, disk: Option<DiskRequest>, nic: Option<NicRequest>)
    requires AllValid(devices) && DistinctKeys(devices) && CompileDisk(api, devices, disk).fault.NoFault?
    requires nic.Some? && HasCard(devices) ==> CardsPossible(nic.value.add, api)
    ensures var first := CompileDisk(api, devices, disk).devices;
      && (HasCard(first) <==> HasCard(devices))
      && NewCards(first, nic, api) == NewCards(devices, nic, api)
      && RemovedCards(first, nic) == RemovedCards(devices, nic)
      && TouchedCards(first, nic) == TouchedCards(devices, nic)
  {
    var first := CompileDisk(api, devices, disk).devices;
    DiskShape(api, devices, disk);
    SameKindsHasCard(first, devices);
    if nic.Some? {
      SameUnits(first, devices, "nic", |nic.value.add|);
      forall i | 0 <= i < |devices| ensures devices[i].kind.Card? ==> first[i] == devices[i] {
        DiskRecord(api, devices, disk, i);
      }
      SameKeysWhere(first, devices, d => RemovesCard(nic.value.remove, d));
      SameKeysWhere(first, devices, d => TouchedCard(nic.value.edit, d));
    }
  }

  lemma AmountsOf(api: Api, devices: seq<Device>, disk: Option<DiskRequest>, nic: Option<NicRequest>)
    requires AllValid(devices) && DistinctKeys(devices) && Compile(api, devices, disk, nic).fault.NoFault?
    ensures nic.Some? && HasCard(devices) ==> CardsPossible(nic.value.add, api)
    ensures var c := Compile(api, devices, disk, nic);
      var p1 := CompileDisk(api, devices, disk).entries;
      var p2 := CompileNic(api, CompileDisk(api, devices, disk).devices, nic).entries;
      && SameIdentity(c.devices, devices)
      && Within(p1, |devices|) && Within(p2, |devices|) && Within(c.entries, |devices|)
      && Payload(c.devices, c.entries) == Payload(c.devices, p1) + Payload(c.devices, p2)
      && Amounts(Payload(c.devices, p1), devices, c.devices,
           NewDisks(devices, disk, api.newer60), RemovedDisks(devices, disk), TouchedDisks(devices, disk))
      && Amounts(Payload(c.devices, p2), devices, c.devices,
           NewCards(devices, nic, api), RemovedCards(devices, nic), TouchedCards(devices, nic))
  {
    CompileShape(api, devices, disk, nic);
    var c := Compile(api, devices, disk, nic);
    var first := CompileDisk(api, devices, disk);
    var second := CompileNic(api, first.devices, nic);
    DiskShape(api, devices, disk);
    CardShape(api, first.devices, nic);
    DiskPart(api, devices, c.devices, disk);
    CardPart(api, first.devices, c.devices, nic);
    SameCards(api, devices, disk, nic);
    PayloadConcat(c.devices, first.entries, second.entries);
    forall i, d: Device | 0 <= i < |devices| && devices[i].key in TouchedCards(devices, nic) && d.key == devices[i].key
      ensures LastEdit(Payload(c.devices, second.entries), d) == c.devices[i]
    {
      assert first.devices[i].key == devices[i].key;
    }
  }

  /** The key sets of a request, read off the machine. */
  lemma KeysOfRequest(m: DeviceMap, devices: seq<Device>, disk: Option<DiskRequest>,
    nic: Option<NicRequest>)
    requires ValidMap(m) && Lists(m, devices)
    ensures forall k :: k in RemovedDisks(devices, disk) <==> k in m && m[k].kind.Disk? && Removed(disk, nic, m[k])
    ensures forall k :: k in RemovedCards(devices, nic) <==> k in m && m[k].kind.Card? && Removed(disk, nic, m[k])
    ensures forall k :: k in TouchedDisks(devices, disk) <==> k in m && m[k].kind.Disk? && Touched(disk, nic, m[k])
    ensures forall k :: k in TouchedCards(devices, nic) <==> k in m && m[k].kind.Card? && Touched(disk, nic, m[k])
  {
    ListedKeys(m, devices);
  }

  ghost predicate NothingBothRemovedAndTouched(m: DeviceMap, disk: Option<DiskRequest>, nic: Option<NicRequest>) {
    forall k :: k in m ==> !(Removed(disk, nic, m[k]) && Touched(disk, nic, m[k]))
  }

  /** Both halves of the list together. */
  lemma {:induction false} BothHalves(m: DeviceMap, devices: seq<Device>, f: seq<Device>, p1: seq<Change>,
    p2: seq<Change>,
    disks: seq<Device>, cards: seq<Device>, disk: Option<DiskRequest>, nic: Option<NicRequest>)
    requires ValidMap(m) && Lists(m, devices) && |f| == |devices|
    requires Amounts(p1, devices, f, disks, RemovedDisks(devices, disk), TouchedDisks(devices, disk))
    requires Amounts(p2, devices, f, cards, RemovedCards(devices, nic), TouchedCards(devices, nic))
    ensures AddedDevices(p1 + p2) == disks + cards
    ensures NamedKeys(p1 + p2) <= m.Keys
    ensures RemovedKeys(p1 + p2) == set k | k in m && Removed(disk, nic, m[k])
    ensures Compatible(p1 + p2) <==> NothingBothRemovedAndTouched(m, disk, nic)
  {
    ConcatChanges(p1, p2);
    DisjointKinds(m, devices, disk, nic);
  }

  lemma DisjointKinds(m: DeviceMap, devices: seq<Device>, disk: Option<DiskRequest>,
    nic: Option<NicRequest>)
    requires ValidMap(m) && Lists(m, devices)
    ensures var rd, td := RemovedDisks(devices, disk), TouchedDisks(devices, disk);
      var rc, tc := RemovedCards(devices, nic), TouchedCards(devices, nic);
      && rd <= m.Keys && td <= m.Keys && rc <= m.Keys && tc <= m.Keys
      && rd + rc == (set k | k in m && Removed(disk, nic, m[k]))
      && rd !! (rc + tc)
      && (rd !! td && rc !! tc <==> NothingBothRemovedAndTouched(m, disk, nic))
  {
    KeysOfRequest(m, devices, disk, nic);
    var rd, td := RemovedDisks(devices, disk), TouchedDisks(devices, disk);
    var rc, tc := RemovedCards(devices, nic), TouchedCards(devices, nic);
    forall k
      ensures k in rd && k in td <==> k in m && m[k].kind.Disk? && Removed(disk, nic, m[k]) && Touched(disk, nic, m[k])
    {
      assert k in rd <==> k in RemovedDisks(devices, disk);
      assert k in td <==> k in TouchedDisks(devices, disk);
    }
    forall k
      ensures k in rc && k in tc <==> k in m && m[k].kind.Card? && Removed(disk, nic, m[k]) && Touched(disk, nic, m[k])
    {
      assert k in rc <==> k in RemovedCards(devices, nic);
      assert k in tc <==> k in TouchedCards(devices, nic);
    }
    if rd !! td && rc !! tc {
      forall k | k in m ensures !(Removed(disk, nic, m[k]) && Touched(disk, nic, m[k])) {
        assert !(k in rd && k in td) && !(k in rc && k in tc);
      }
    }
    if NothingBothRemovedAndTouched(m, disk, nic) {
      assert forall k :: !(k in rd && k in td) && !(k in rc && k in tc);
    }
    forall k ensures k in rd + rc <==> k in m && Removed(disk, nic, m[k]) {
      assert k in rd + rc <==> k in RemovedDisks(devices, disk) || k in RemovedCards(devices, nic);
    }
  }

  lemma {:induction false} BothEdits(devices: seq<Device>, f: seq<Device>, p1: seq<Change>, p2: seq<Change>,
    disks: seq<Device>, cards: seq<Device>, removed1: set<int>, removed2: set<int>, touched1: set<int>,
    touched2: set<int>, i: nat)
    requires |f| == |devices| && i < |devices| && f[i].key == devices[i].key
    requires Amounts(p1, devices, f, disks, removed1, touched1)
    requires Amounts(p2, devices, f, cards, removed2, touched2)
    ensures LastEdit(p1 + p2, devices[i]) == if devices[i].key in touched1 + touched2 then f[i] else devices[i]
  {
    ConcatLastEdit(p1, p2, devices[i]);
  }

  /** vCenter accepts the list exactly when the request changes no device that it also removes, and
      then the machine is the one the request describes. */
  lemma {:induction false} AppliesAsDescribed(api: Api, m: DeviceMap, devices: seq<Device>,
    disk: Option<DiskRequest>, nic: Option<NicRequest>, landings: seq<Landing>)
    requires ValidMap(m) && Lists(m, devices) && AllValid(devices) && FreshLandings(m, landings)
    requires Compile(api, devices, disk, nic).fault.NoFault?
    requires nic.Some? && HasCard(devices) ==> CardsPossible(nic.value.add, api)
    requires |landings| == |NewDevices(api, devices, disk, nic)|
    ensures var c := Compile(api, devices, disk, nic);
      && Within(c.entries, |c.devices|)
      && var changes := Payload(c.devices, c.entries);
         && AddedDevices(changes) == NewDevices(api, devices, disk, nic)
         && (Apply(m, changes, landings).Some? <==> NothingBothRemovedAndTouched(m, disk, nic))
         && (Apply(m, changes, landings).Some? ==>
               Described(api, m, devices, disk, nic, landings, Apply(m, changes, landings).value))
  {
    var c := Compile(api, devices, disk, nic);
    ListedKeys(m, devices);
    AmountsOf(api, devices, disk, nic);
    var p1 := Payload(c.devices, CompileDisk(api, devices, disk).entries);
    var p2 := Payload(c.devices, CompileNic(api, CompileDisk(api, devices, disk).devices, nic).entries);
    BothHalves(m, devices, c.devices, p1, p2, NewDisks(devices, disk, api.newer60), NewCards(devices, nic, api), disk,
      nic);
    ApplyCarriesOut(m, p1 + p2, landings);
    forall k | k in m ensures LastEdit(p1 + p2, m[k]) == Edited(api, disk, nic, m[k]) {
      RecordAfter(api, m, devices, disk, nic, k);
    }
    match Apply(m, p1 + p2, landings)
    case None =>
    case Some(after) => ReadOff(api, m, devices, disk, nic, landings, p1 + p2, after);
  }

  lemma {:induction false} ReadOff(api: Api, m: DeviceMap, devices: seq<Device>, disk: Option<DiskRequest>,
    nic: Option<NicRequest>,
    landings: seq<Landing>, changes: seq<Change>, after: DeviceMap)
    requires ValidMap(m)
    requires nic.Some? && HasCard(devices) ==> CardsPossible(nic.value.add, api)
    requires AddedDevices(changes) == NewDevices(api, devices, disk, nic) && |landings| == |AddedDevices(changes)|
    requires RemovedKeys(changes) == set k | k in m && Removed(disk, nic, m[k])
    requires forall k :: k in m ==> LastEdit(changes, m[k]) == Edited(api, disk, nic, m[k])
    requires CarriedOut(m, changes, landings, after)
    ensures Described(api, m, devices, disk, nic, landings, after)
  {
    assert (set k | k in m && !Removed(disk, nic, m[k])) == m.Keys - RemovedKeys(changes);
  }

  lemma RecordAfter(api: Api, m: DeviceMap, devices: seq<Device>, disk: Option<DiskRequest>,
    nic: Option<NicRequest>, k: int)
    requires ValidMap(m) && Lists(m, devices) && AllValid(devices) && k in m
    requires Compile(api, devices, disk, nic).fault.NoFault?
    ensures var c := Compile(api, devices, disk, nic);
      && Within(c.entries, |c.devices|)
      && LastEdit(Payload(c.devices, c.entries), m[k]) == Edited(api, disk, nic, m[k])
  {
    var c := Compile(api, devices, disk, nic);
    ListedKeys(m, devices);
    var i :| 0 <= i < |devices| && devices[i] == m[k];
    AmountsOf(api, devices, disk, nic);
    FinalRecord(api, devices, disk, nic, i);
    KeysOfRequest(m, devices, disk, nic);
    BothEdits(devices, c.devices,
      Payload(c.devices, CompileDisk(api, devices, disk).entries),
      Payload(c.devices, CompileNic(api, CompileDisk(api, devices, disk).devices, nic).entries),
      NewDisks(devices, disk, api.newer60), NewCards(devices, nic, api),
      RemovedDisks(devices, disk), RemovedCards(devices, nic), TouchedDisks(devices, disk), TouchedCards(devices, nic),
      i);
  }

  // ----- Consequences -----

  lemma {:induction false} EditedDiskKeepsIdentity(d: Device, edits: seq<EditDiskParameter>, newer60: bool)
    requires d.backing.DiskBacking?
    ensures var r := EditedDiskBy(d, edits, newer60);
      r.kind == d.kind && r.key == d.key && r.unit == d.unit && r.backing.datastore == d.backing.datastore
  {
    if edits != [] {
      EditedDiskKeepsIdentity(d, edits[..|edits| - 1], newer60);
    }
  }

  lemma {:induction false} EditedCardKeepsIdentity(d: Device, edits: seq<EditNicParameter>,
    networks: map<string, string>)
    requires d.backing.CardBacking?
    ensures var r := EditedCardBy(d, edits, networks);
      r.kind == d.kind && r.key == d.key && r.unit == d.unit && r.backing.CardBacking?
  {
    if edits != [] {
      EditedCardKeepsIdentity(d, edits[..|edits| - 1], networks);
    }
  }

  /** An edit never changes what a device is, its key, or its unit number. */
  lemma EditedKeepsIdentity(api: Api, disk: Option<DiskRequest>, nic: Option<NicRequest>, d: Device)
    requires ValidDevice(d)
    ensures var r := Edited(api, disk, nic, d);
      r.kind == d.kind && r.key == d.key && r.unit == d.unit && ValidDevice(r)
  {
    if d.kind.Disk? && disk.Some? {
      EditedDiskKeepsIdentity(d, disk.value.edit, api.newer60);
    }
    if d.kind.Card? && nic.Some? {
      EditedCardKeepsIdentity(d, nic.value.edit, api.networks);
    }
  }

  /** Whatever is asked, the system disk stays. */
  lemma SystemDiskStays(api: Api, m: DeviceMap, devices: seq<Device>,
    disk: Option<DiskRequest>, nic: Option<NicRequest>, landings: seq<Landing>, after: DeviceMap, k: int)
    requires ValidMap(m)
    requires nic.Some? && HasCard(devices) ==> CardsPossible(nic.value.add, api)
    requires |landings| == |NewDevices(api, devices, disk, nic)|
    requires Described(api, m, devices, disk, nic, landings, after)
    requires k in m && m[k].kind.Disk? && m[k].unit == Some(0)
    ensures k in after && after[k].kind.Disk? && after[k].unit == Some(0)
  {
    assert !Removed(disk, nic, m[k]);
    EditedKeepsIdentity(api, disk, nic, m[k]);
  }

  /** The new devices share their unit numbers with no device that was there, the new devices of a
      kind not with each other, and no new disk takes number 7. */
  lemma UnitsAreFresh(api: Api, m: DeviceMap, devices: seq<Device>,
    disk: Option<DiskRequest>, nic: Option<NicRequest>, landings: seq<Landing>, after: DeviceMap)
    requires ValidMap(m) && Lists(m, devices)
    requires nic.Some? && HasCard(devices) ==> CardsPossible(nic.value.add, api)
    requires |landings| == |NewDevices(api, devices, disk, nic)|
    requires Described(api, m, devices, disk, nic, landings, after)
    ensures forall i, k :: 0 <= i < |landings| && k in m ==> after[landings[i].key].unit != m[k].unit
    ensures forall i, j :: 0 <= i < j < |landings| && after[landings[i].key].kind == after[landings[j].key].kind ==>
      after[landings[i].key].unit != after[landings[j].key].unit
    ensures forall i :: 0 <= i < |landings| && after[landings[i].key].kind.Disk? ==>
      after[landings[i].key].unit != Some(7)
  {
    var news := NewDevices(api, devices, disk, nic);
    NewUnits(api, devices, disk, nic);
    assert forall i :: 0 <= i < |landings| ==> landings[i].key in LandedKeys(landings);
    assert forall i :: 0 <= i < |landings| ==>
      after[landings[i].key].unit == news[i].unit && after[landings[i].key].kind == news[i].kind;
  }

  lemma NewUnits(api: Api, devices: seq<Device>, disk: Option<DiskRequest>, nic: Option<NicRequest>)
    requires nic.Some? && HasCard(devices) ==> CardsPossible(nic.value.add, api)
    ensures var news := NewDevices(api, devices, disk, nic);
      && (forall i :: 0 <= i < |news| ==> news[i].unit.Some? && (news[i].kind.Disk? ==> news[i].unit.value != 7))
      && (forall i, d :: 0 <= i < |news| && d in devices ==> news[i].unit != d.unit)
      && (forall i, j :: 0 <= i < j < |news| && news[i].kind == news[j].kind ==> news[i].unit != news[j].unit)
  {
    if disk.Some? {
      FreshUnitsAreFresh(devices, "disk", |disk.value.add|);
    }
    if nic.Some? {
      FreshUnitsAreFresh(devices, "nic", |nic.value.add|);
    }
  }
}
