/** Giving each requested interface the key of the card that was made for it
    (vsphere/workerpool/virtual_machine_deployer.go:198-250, 273-291). */
module NicKeys {
  import opened Wrappers
  import opened Devices
  import opened UnitNumbers
  import opened Reconfiguration
  import opened ReconfigurationMeaning
  import opened VSphere
  import opened Reconfigurer

  datatype NetworkInterface = NetworkInterface(
    id: string, key: int, networkID: string, adapterType: Option<string>, mac: Option<string>)

  ghost predicate DistinctIDs(ids: seq<string>) {
    forall i, j :: 0 <= i < j < |ids| ==> ids[i] != ids[j]
  }

  function CardKeys(devices: seq<Device>): (r: seq<int>)
    ensures forall k :: k in r <==> exists d :: d in devices && d.kind.Card? && d.key == k
  {
    if devices == [] then [] else
    var n := |devices| - 1;
    assert devices == devices[..n] + [devices[n]];
    if devices[n].kind.Card? then CardKeys(devices[..n]) + [devices[n].key] else CardKeys(devices[..n])
  }

  /** The addition requested for an interface.  No address type is set, so a requested address is not
      used (virtual_machine_reconfig.go:707-712). */
  function AdditionFor(n: NetworkInterface, id: string): AddNicParameter {
    AddNicParameter(id, n.networkID, n.adapterType, None, n.mac, None)
  }

  function AdditionsFor(interfaces: seq<NetworkInterface>, ids: seq<string>): seq<AddNicParameter>
    requires |ids| >= |interfaces|
  {
    seq(|interfaces|, i requires 0 <= i < |interfaces| => AdditionFor(interfaces[i], ids[i]))
  }

  /** Give the interfaces their IDs and request a card for each. */
  method RequestCards(interfaces: array<NetworkInterface>, ids: seq<string>) returns (adds: array<AddNicParameter>)
    requires |ids| >= interfaces.Length
    modifies interfaces
    ensures fresh(adds)
    ensures adds[..] == AdditionsFor(old(interfaces[..]), ids)
    ensures forall i :: 0 <= i < interfaces.Length ==>
      && adds[..][i].id == ids[i] && adds[..][i].networkID == old(interfaces[i]).networkID
      && adds[..][i].adapterType == old(interfaces[i]).adapterType && adds[..][i].mac == old(interfaces[i]).mac
      && adds[..][i].addressType.None? && adds[..][i].unitNumber.None?
    ensures forall i :: 0 <= i < interfaces.Length ==> interfaces[i] == old(interfaces[i]).(id := ids[i])
  {
    ghost var was := interfaces[..];
    var add: seq<AddNicParameter> := [];
    for i := 0 to interfaces.Length
      invariant add == AdditionsFor(was[..i], ids)
      invariant forall j :: 0 <= j < i ==> interfaces[j] == was[j].(id := ids[j])
      invariant forall j :: i <= j < interfaces.Length ==> interfaces[j] == was[j]
    {
      add := add + [AdditionFor(interfaces[i], ids[i])];
      interfaces[i] := interfaces[i].(id := ids[i]);
    }
    assert was[..interfaces.Length] == was;
    adds := new AddNicParameter[|add|](i requires 0 <= i < |add| => add[i]);
  }

  /** The write-back.  It dereferences the unit number of every addition, which is nil when the machine
      had no card and the additions were dropped. */
  method WriteBack(newCards: seq<Device>, adds: array<AddNicParameter>, interfaces: array<NetworkInterface>)
    returns (panicked: bool)
    requires adds.Length == interfaces.Length
    requires forall i :: 0 <= i < adds.Length ==> adds[i].id == interfaces[i].id
    requires forall i, j :: 0 <= i < j < adds.Length ==> adds[i].id != adds[j].id
    modifies interfaces
    ensures panicked <==> exists i :: 0 <= i < adds.Length && adds[i].unitNumber.None?
    ensures forall i :: 0 <= i < interfaces.Length ==>
      interfaces[i] == old(interfaces[i]).(key := interfaces[i].key)
    ensures !panicked ==> forall i :: 0 <= i < interfaces.Length ==>
      HoldsKeyOf(newCards, adds[i].unitNumber.value, interfaces[i].key)
  {
    var unKeymap := BuildUnitMap(newCards, Card);
    var unMap: map<string, int> := map[];
    panicked := false;
    for j := 0 to adds.Length
      invariant forall i :: 0 <= i < j ==>
        adds[i].unitNumber.Some? && adds[i].id in unMap && unMap[adds[i].id] == adds[i].unitNumber.value
      invariant forall i :: j <= i < adds.Length ==> adds[i].id !in unMap
    {
      if adds[j].unitNumber.None? {
        return true;
      }
      unMap := unMap[adds[j].id := adds[j].unitNumber.value];
    }
    for j := 0 to interfaces.Length
      invariant forall i :: 0 <= i < j ==> interfaces[i] == old(interfaces[i]).(key := interfaces[i].key)
      invariant forall i :: 0 <= i < j ==> HoldsKeyOf(newCards, adds[i].unitNumber.value, interfaces[i].key)
      invariant forall i :: j <= i < interfaces.Length ==> interfaces[i] == old(interfaces[i])
    {
      var id := interfaces[j].id;
      var un := if id in unMap then unMap[id] else 0;
      var key := if un in unKeymap then unKeymap[un].key else 0;
      interfaces[j] := interfaces[j].(key := key);
    }
  }

  /** `key` is the key of a card with this unit number, or 0 when there is none. */
  predicate HoldsKeyOf(cards: seq<Device>, unit: int, key: int) {
    if exists d :: d in cards && d.kind.Card? && d.unit == Some(unit)
    then exists d :: d in cards && d.kind.Card? && d.unit == Some(unit) && d.key == key
    else key == 0
  }

  /** When the machine had a card, the card found by the number of the i-th addition is the card made
      from it. */
  lemma FoundKeyIsNewCard(api: Api, m: DeviceMap, o: ReconfigureOutcome, nic: NicRequest,
    after: DeviceMap,
    devices: seq<Device>, i: nat, key: int)
    requires Truthful(m, o, |nic.add|) && Reconfigured(api, m, o, None, Some(nic), after)
    requires HasCard(o.listing.value) && i < |nic.add|
    requires Lists(after, devices)
    requires HoldsKeyOf(devices, FreshUnits(o.listing.value, "nic", |nic.add|)[i], key)
    ensures key == o.landings[i].key
    ensures key in after && after[key].kind.Card?
      && after[key].unit == Some(FreshUnits(o.listing.value, "nic", |nic.add|)[i])
    ensures after[key].backing.CardBacking? && after[key].backing.network == nic.add[i].networkID
  {
    NewCardLands(api, m, o, nic, after, i);
    assert after[o.landings[i].key] in devices;
    var d :| d in devices && d.kind.Card? && d.unit == Some(FreshUnits(o.listing.value, "nic", |nic.add|)[i])
      && d.key == key;
    assert after[key] == d;
    NewDeviceByUnit(api, m, o, None, Some(nic), after, i, key);
  }

  lemma NewCardLands(api: Api, m: DeviceMap, o: ReconfigureOutcome, nic: NicRequest,
    after: DeviceMap, i: nat)
    requires ValidMap(m) && Reconfigured(api, m, o, None, Some(nic), after)
    requires HasCard(o.listing.value) && i < |nic.add|
    ensures i < |NewDevices(api, o.listing.value, None, Some(nic))| <= |o.landings|
    ensures var unit := FreshUnits(o.listing.value, "nic", |nic.add|)[i];
      && nic.add[i].networkID in api.networks
      && NewDevices(api, o.listing.value, None, Some(nic))[i] == NewCard(nic.add[i], unit, api.networks)
      && o.landings[i].key in after
      && after[o.landings[i].key] == NewCard(nic.add[i], unit, api.networks).(key := o.landings[i].key)
  {
    assert nic.add[i] in nic.add;
    NewDeviceLands(api, m, o, None, Some(nic), after, i);
  }

  /** When all cards are removed, the cards that remain are the new ones. */
  lemma OnlyNewCards(api: Api, m: DeviceMap, o: ReconfigureOutcome, nic: NicRequest,
    after: DeviceMap, k: int)
    requires Truthful(m, o, |nic.add|) && Reconfigured(api, m, o, None, Some(nic), after)
    requires forall c :: c in m && m[c].kind.Card? ==> c in nic.remove
    requires k in after && after[k].kind.Card?
    ensures exists i :: 0 <= i < |nic.add| && o.landings[i].key == k
  {
    if k in m {
      EditedKeepsIdentity(api, None, Some(nic), m[k]);
    }
    Origin(api, m, o, None, Some(nic), after, k);
  }
}
