/** What a vCenter reports of its inventory, and the queries of the facade, which look into the cache first
    (vsphere/cluster.go, datastore.go, host.go, network.go, resource_pool.go, datacenter.go, vcenter.go). */
module Inventory {
  import opened Wrappers
  import opened VCCache

  datatype Kind = Cluster | Datastore | Host | Network | ResourcePool

  /** An object of the inventory. Its info names the datacenter, cluster and host it belongs to. */
  datatype Object = Object(kind: Kind, info: Info)

  datatype Inventory = Inventory(datacenters: seq<Info>, objects: seq<Object>)

  datatype Query = Query(ids: seq<string>, clusterID: string, hostID: string, datacenterID: string)

  const DATACENTER := "Datacenter"

  /** Clusters are cached under the type of plain compute resources. */
  function TypeName(kind: Kind): string {
    match kind
    case Cluster => "ComputeResource"
    case Datastore => "Datastore"
    case Host => "HostSystem"
    case Network => "Network"
    case ResourcePool => "ResourcePool"
  }

  /** The key handed to the cache, which prefixes the vCenter's ID once more for resource pools. */
  function KindKey(vcid: string, kind: Kind): string {
    if kind == ResourcePool then Key(vcid, TypeName(kind)) else TypeName(kind)
  }

  function FullKey(vcid: string, kind: Kind): string {
    Key(vcid, KindKey(vcid, kind))
  }

  // ----- What vCenter answers -----

  /** The objects of a kind below a datacenter, in the order of the container view. */
  function Under(objects: seq<Object>, kind: Kind, dc: string): seq<Object> {
    if objects == [] then [] else
    var n := |objects| - 1;
    var o := objects[n];
    Under(objects[..n], kind, dc) + if o.kind == kind && o.info.datacenterID == dc then [o] else []
  }

  function UnderCluster(objects: seq<Object>, kind: Kind, cluster: string): seq<Object> {
    if objects == [] then [] else
    var n := |objects| - 1;
    var o := objects[n];
    UnderCluster(objects[..n], kind, cluster) + if o.kind == kind && o.info.clusterID == cluster then [o] else []
  }

  function UnderHost(objects: seq<Object>, kind: Kind, host: string): seq<Object> {
    if objects == [] then [] else
    var n := |objects| - 1;
    var o := objects[n];
    UnderHost(objects[..n], kind, host) + if o.kind == kind && o.info.hostID == host then [o] else []
  }

  /** A container view of a datacenter; reading one of the failing datacenters gives nothing. */
  function ReadDatacenter(inv: Inventory, kind: Kind, dc: string, failing: set<string>): Option<seq<Object>> {
    if dc in failing then None else Some(Under(inv.objects, kind, dc))
  }

  function Find(objects: seq<Object>, kind: Kind, id: string): Option<Object> {
    if objects == [] then None else
    if objects[0].kind == kind && objects[0].info.id == id then Some(objects[0]) else Find(objects[1..], kind, id)
  }

  /** Reading one object. For resource pools the error check is inverted: a pool that can be read is dropped. */
  function ReadObject(inv: Inventory, kind: Kind, id: string): Option<Object> {
    if kind == ResourcePool then None else Find(inv.objects, kind, id)
  }

  function Build(o: Object, dc: string): Info {
    o.info.(datacenterID := dc)
  }

  function Built(os: seq<Object>, dc: string): seq<Info> {
    if os == [] then [] else
    var n := |os| - 1;
    Built(os[..n], dc) + [Build(os[n], dc)]
  }

  function BuiltFrom(read: Option<seq<Object>>, dc: string): seq<Info> {
    match read
    case None => []
    case Some(os) => Built(os, dc)
  }

  /** All objects of a kind, datacenter by datacenter, leaving out those that could not be read. */
  function Listed(inv: Inventory, kind: Kind, dcs: seq<Info>, failing: set<string>): seq<Info> {
    if dcs == [] then [] else
    var n := |dcs| - 1;
    Listed(inv, kind, dcs[..n], failing) + BuiltFrom(ReadDatacenter(inv, kind, dcs[n].id, failing), dcs[n].id)
  }

  function Full(inv: Inventory, kind: Kind): seq<Info> {
    Listed(inv, kind, inv.datacenters, {})
  }

  function ByIDs(inv: Inventory, kind: Kind, ids: seq<string>): seq<Info> {
    if ids == [] then [] else
    var n := |ids| - 1;
    ByIDs(inv, kind, ids[..n]) +
    match ReadObject(inv, kind, ids[n])
    case None => []
    case Some(o) => [Build(o, "")]
  }

  predicate ByOwner(kind: Kind, q: Query) {
    || (kind == Host && q.clusterID != "")
    || (kind == ResourcePool && (q.clusterID != "" || q.hostID != ""))
  }

  function OwnedBy(inv: Inventory, kind: Kind, q: Query): seq<Info> {
    (if q.clusterID == "" then [] else Built(UnderCluster(inv.objects, kind, q.clusterID), "")) +
    (if kind != ResourcePool || q.hostID == "" then [] else Built(UnderHost(inv.objects, kind, q.hostID), ""))
  }

  /** The answer without a cache; dcs are the datacenters the listing goes through. */
  function Direct(inv: Inventory, kind: Kind, q: Query, dcs: seq<Info>, failing: set<string>): seq<Info> {
    if q.ids != [] then ByIDs(inv, kind, q.ids)
    else if ByOwner(kind, q) then OwnedBy(inv, kind, q)
    else if q.datacenterID != "" then BuiltFrom(ReadDatacenter(inv, kind, q.datacenterID, failing), q.datacenterID)
    else Listed(inv, kind, dcs, failing)
  }

  // ----- What the cache answers -----

  predicate Keeps(kind: Kind, q: Query, i: Info) {
    if q.ids != [] then i.id in q.ids
    else if kind == Host && q.clusterID != "" then i.clusterID == q.clusterID
    else if kind == ResourcePool && (q.clusterID != "" || q.hostID != "") then
      q.clusterID == i.clusterID || q.hostID == i.hostID
    else if q.datacenterID != "" then i.datacenterID == q.datacenterID
    else true
  }

  function Filtered(kind: Kind, q: Query, infos: seq<Info>): seq<Info> {
    if infos == [] then [] else
    var n := |infos| - 1;
    Filtered(kind, q, infos[..n]) + if Keeps(kind, q, infos[n]) then [infos[n]] else []
  }

  function WithIDs(ids: seq<string>, infos: seq<Info>): seq<Info> {
    if infos == [] then [] else
    var n := |infos| - 1;
    WithIDs(ids, infos[..n]) + if infos[n].id in ids then [infos[n]] else []
  }

  /** A cached listing, empty when there is none. A nil slice and an empty one are the same to every caller. */
  function Seen(items: Items, s: Settings, vcid: string, k: string): seq<Info> {
    match Lookup(items, s, vcid, k)
    case Some(Listing(infos)) => infos
    case _ => []
  }

  /** The datacenters a fill goes through. */
  function SeenDatacenters(items: Items, s: Settings, vcid: string, inv: Inventory): seq<Info> {
    if Seen(items, s, vcid, DATACENTER) != [] then Seen(items, s, vcid, DATACENTER) else inv.datacenters
  }

  /** An answer made of a listing and datacenters the cache held when they were looked up. */
  function Answer(cached: seq<Info>, dcs: seq<Info>, inv: Inventory, kind: Kind, q: Query,
    failing: set<string>): seq<Info> {
    if Filtered(kind, q, cached) != [] then Filtered(kind, q, cached) else Direct(inv, kind, q, dcs, failing)
  }

  function DatacenterAnswer(cached: seq<Info>, inv: Inventory, ids: seq<string>): seq<Info> {
    if ids != [] && WithIDs(ids, cached) != [] then WithIDs(ids, cached)
    else if ids != [] then WithIDs(ids, inv.datacenters)
    else if cached != [] then cached
    else inv.datacenters
  }

  // ----- What a query leaves in the cache -----

  function AfterDatacenters(items: Items, s: Settings, vcid: string, inv: Inventory): Items {
    if Seen(items, s, vcid, DATACENTER) != [] || inv.datacenters == [] then items
    else PutIfAbsent(items, s, vcid, DATACENTER, Listing(inv.datacenters))
  }

  function AfterFill(items: Items, s: Settings, vcid: string, inv: Inventory, kind: Kind, failing: set<string>): Items {
    var dcs := SeenDatacenters(items, s, vcid, inv);
    var filled := AfterDatacenters(items, s, vcid, inv);
    if dcs == [] then filled
    else PutIfAbsent(filled, s, vcid, KindKey(vcid, kind), Listing(Listed(inv, kind, dcs, failing)))
  }

  predicate Unfiltered(kind: Kind, q: Query) {
    q.ids == [] && !ByOwner(kind, q) && q.datacenterID == ""
  }

  function AfterQuery(items: Items, s: Settings, vcid: string, inv: Inventory, kind: Kind, q: Query,
    failing: set<string>): Items {
    if Unfiltered(kind, q) && Seen(items, s, vcid, KindKey(vcid, kind)) == [] then
      AfterFill(items, s, vcid, inv, kind, failing)
    else items
  }

  function AfterDatacenterQuery(items: Items, s: Settings, vcid: string, inv: Inventory, ids: seq<string>): Items {
    if ids == [] then AfterDatacenters(items, s, vcid, inv) else items
  }

  /** Cleaning and filling again, in the order of createCache. */
  function Recreated(items: Items, s: Settings, vcid: string, inv: Inventory): Items {
    if !s.enable then items else
    var a := AfterDatacenters(CleanedAll(items, vcid), s, vcid, inv);
    var b := AfterFill(a, s, vcid, inv, Datastore, {});
    var c := AfterFill(b, s, vcid, inv, ResourcePool, {});
    var d := AfterFill(c, s, vcid, inv, Cluster, {});
    var e := AfterFill(d, s, vcid, inv, Host, {});
    AfterFill(e, s, vcid, inv, Network, {})
  }

  /** The queries of one vCenter. Every method is given the inventory as vCenter answers during the call. */
  class Client {
    const cache: Cache

    constructor (cache: Cache)
      ensures this.cache == cache
    {
      this.cache := cache;
    }

    method GetListing(k: string) returns (infos: seq<Info>)
      ensures infos == Seen(cache.store.items, cache.settings, cache.vcid, k)
    {
      var v := cache.Get(k);
      match v
      case Some(Listing(l)) => infos := l;
      case _ => infos := [];
    }

    method GetDatacenters(inv: Inventory) returns (infos: seq<Info>)
      modifies cache.store
      ensures infos == SeenDatacenters(old(cache.store.items), cache.settings, cache.vcid, inv)
      ensures cache.store.items == AfterDatacenters(old(cache.store.items), cache.settings, cache.vcid, inv)
    {
      infos := GetListing(DATACENTER);
      if infos != [] {
        return;
      }
      if inv.datacenters == [] {
        return;
      }
      for i := 0 to |inv.datacenters|
        invariant infos == inv.datacenters[..i]
      {
        infos := infos + [inv.datacenters[i]];
      }
      cache.Set(DATACENTER, Listing(infos));
    }

    method DatacentersByIDs(all: seq<Info>, ids: seq<string>) returns (infos: seq<Info>)
      ensures infos == WithIDs(ids, all)
    {
      infos := [];
      for i := 0 to |all|
        invariant infos == WithIDs(ids, all[..i])
      {
        assert all[..i + 1][..i] == all[..i];
        if all[i].id in ids {
          infos := infos + [all[i]];
        }
      }
      assert all[..|all|] == all;
    }

    method QueryDatacenters(inv: Inventory, ids: seq<string>) returns (infos: seq<Info>)
      modifies cache.store
      ensures infos == DatacenterAnswer(old(Seen(cache.store.items, cache.settings, cache.vcid, DATACENTER)), inv, ids)
      ensures cache.store.items == AfterDatacenterQuery(old(cache.store.items), cache.settings, cache.vcid, inv, ids)
    {
      infos := GetListing(DATACENTER);
      if |ids| > 0 {
        infos := DatacentersByIDs(infos, ids);
      }
      if infos != [] {
        return;
      }
      if |ids| > 0 {
        infos := DatacentersByIDs(inv.datacenters, ids);
      } else {
        infos := GetDatacenters(inv);
      }
    }

    method BuildInfos(os: seq<Object>, dc: string) returns (infos: seq<Info>)
      ensures infos == Built(os, dc)
    {
      infos := [];
      for i := 0 to |os|
        invariant infos == Built(os[..i], dc)
      {
        assert os[..i + 1][..i] == os[..i];
        infos := infos + [Build(os[i], dc)];
      }
      assert os[..|os|] == os;
    }

    method GetAll(kind: Kind, inv: Inventory, failing: set<string>) returns (infos: seq<Info>)
      modifies cache.store
      ensures infos ==
        Listed(inv, kind, SeenDatacenters(old(cache.store.items), cache.settings, cache.vcid, inv), failing)
      ensures cache.store.items == AfterFill(old(cache.store.items), cache.settings, cache.vcid, inv, kind, failing)
    {
      infos := [];
      var dcs := GetDatacenters(inv);
      if dcs == [] {
        return;
      }
      for i := 0 to |dcs|
        invariant infos == Listed(inv, kind, dcs[..i], failing)
        invariant cache.store.items == AfterDatacenters(old(cache.store.items), cache.settings, cache.vcid, inv)
      {
        assert dcs[..i + 1][..i] == dcs[..i];
        var read := ReadDatacenter(inv, kind, dcs[i].id, failing);
        if read.Some? {
          var more := BuildInfos(read.value, dcs[i].id);
          infos := infos + more;
        }
      }
      assert dcs[..|dcs|] == dcs;
      cache.Set(KindKey(cache.vcid, kind), Listing(infos));
    }

    method GetByIDs(kind: Kind, inv: Inventory, ids: seq<string>) returns (infos: seq<Info>)
      ensures infos == ByIDs(inv, kind, ids)
    {
      infos := [];
      for i := 0 to |ids|
        invariant infos == ByIDs(inv, kind, ids[..i])
        invariant kind == ResourcePool ==> i == 0
      {
        assert ids[..i + 1][..i] == ids[..i];
        var read := ReadObject(inv, kind, ids[i]);
        if read.None? {
          if kind == ResourcePool {
            NoPoolByID(inv, ids);
            return [];
          }
        } else {
          infos := infos + [Build(read.value, "")];
        }
      }
      assert ids[..|ids|] == ids;
    }

    method GetByOwner(kind: Kind, inv: Inventory, q: Query) returns (infos: seq<Info>)
      ensures infos == OwnedBy(inv, kind, q)
    {
      infos := [];
      if q.clusterID != "" {
        infos := BuildInfos(UnderCluster(inv.objects, kind, q.clusterID), "");
      }
      if kind == ResourcePool && q.hostID != "" {
        var more := BuildInfos(UnderHost(inv.objects, kind, q.hostID), "");
        infos := infos + more;
      }
    }

    method QueryFromCache(kind: Kind, q: Query) returns (infos: seq<Info>)
      ensures infos == Filtered(kind, q, Seen(cache.store.items, cache.settings, cache.vcid, KindKey(cache.vcid, kind)))
    {
      infos := [];
      var all := GetListing(KindKey(cache.vcid, kind));
      for i := 0 to |all|
        invariant infos == Filtered(kind, q, all[..i])
      {
        assert all[..i + 1][..i] == all[..i];
        if Keeps(kind, q, all[i]) {
          infos := infos + [all[i]];
        }
      }
      assert all[..|all|] == all;
    }

    method QueryObjects(kind: Kind, q: Query, inv: Inventory, failing: set<string>) returns (infos: seq<Info>)
      modifies cache.store
      ensures infos == Answer(old(Seen(cache.store.items, cache.settings, cache.vcid, KindKey(cache.vcid, kind))),
                              SeenDatacenters(old(cache.store.items), cache.settings, cache.vcid, inv), inv, kind, q,
                              failing)
      ensures cache.store.items == AfterQuery(old(cache.store.items), cache.settings, cache.vcid, inv, kind, q, failing)
    {
      infos := QueryFromCache(kind, q);
      if Unfiltered(kind, q) {
        UnfilteredKeepsAll(kind, q, Seen(cache.store.items, cache.settings, cache.vcid, KindKey(cache.vcid, kind)));
      }
      if infos != [] {
        return;
      }
      if |q.ids| > 0 {
        infos := GetByIDs(kind, inv, q.ids);
      } else if ByOwner(kind, q) {
        infos := GetByOwner(kind, inv, q);
      } else if q.datacenterID != "" {
        var read := ReadDatacenter(inv, kind, q.datacenterID, failing);
        if read.Some? {
          infos := BuildInfos(read.value, q.datacenterID);
        }
      } else {
        infos := GetAll(kind, inv, failing);
      }
    }

    method CreateCache(inv: Inventory)
      modifies cache.store
      ensures cache.store.items == Recreated(old(cache.store.items), cache.settings, cache.vcid, inv)
    {
      if cache.settings.enable {
        cache.CleanAll();
        var _ := GetDatacenters(inv);
        var _ := GetAll(Datastore, inv, {});
        var _ := GetAll(ResourcePool, inv, {});
        var _ := GetAll(Cluster, inv, {});
        var _ := GetAll(Host, inv, {});
        var _ := GetAll(Network, inv, {});
      }
    }
  }

  /** Asking for resource pools by ID never finds one. */
  lemma {:induction false} NoPoolByID(inv: Inventory, ids: seq<string>)
    ensures ByIDs(inv, ResourcePool, ids) == []
  {
    if ids != [] {
      NoPoolByID(inv, ids[..|ids| - 1]);
    }
  }

  lemma {:induction false} UnfilteredKeepsAll(kind: Kind, q: Query, infos: seq<Info>)
    requires Unfiltered(kind, q)
    ensures Filtered(kind, q, infos) == infos
  {
    if infos != [] {
      UnfilteredKeepsAll(kind, q, infos[..|infos| - 1]);
      assert infos == infos[..|infos| - 1] + [infos[|infos| - 1]];
    }
  }
}
