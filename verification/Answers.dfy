/** What the queries answer, read off the inventory and the query alone
    (vsphere/cluster.go, datastore.go, host.go, network.go, resource_pool.go, datacenter.go). */
module Answers {
  import opened Wrappers
  import opened VCCache
  import opened Inventory
  import opened CacheRuns

  /** Some elements of a list, in its order. */
  function Chosen<T(!new)>(all: seq<T>, keep: T -> bool): seq<T> {
    if all == [] then [] else
    var n := |all| - 1;
    Chosen(all[..n], keep) + if keep(all[n]) then [all[n]] else []
  }

  lemma {:induction false} ChosenHas<T(!new)>(all: seq<T>, keep: T -> bool)
    ensures forall x :: x in Chosen(all, keep) <==> x in all && keep(x)
  {
    if all != [] {
      ChosenHas(all[..|all| - 1], keep);
      assert all == all[..|all| - 1] + [all[|all| - 1]];
    }
  }

  // ----- Datacenters -----

  lemma {:induction false} WithIDsIs(ids: seq<string>, infos: seq<Info>)
    ensures WithIDs(ids, infos) == Chosen(infos, (x: Info) => x.id in ids)
  {
    if infos != [] {
      WithIDsIs(ids, infos[..|infos| - 1]);
    }
  }

  /** After any run a datacenter query answers, in the order of the inventory, exactly the datacenters whose IDs are
      asked for, and all of them if none is. */
  lemma {:induction false} DatacentersAnswered(s: Settings, world: World, steps: seq<Step>, v: string,
    ids: seq<string>)
    requires AllPossible(world, steps) && v in world
    ensures
      var answer := DatacenterAnswer(Seen(Run(map[], s, world, steps), s, v, DATACENTER), world[v], ids);
      && (ids == [] ==> answer == world[v].datacenters)
      && (ids != [] ==>
            && (forall x :: x in answer <==> x in world[v].datacenters && x.id in ids)
            && answer == Chosen(world[v].datacenters, (x: Info) => x.id in ids))
  {
    DatacentersAreTransparent(s, world, steps, v, ids);
    WithIDsIs(ids, world[v].datacenters);
    ChosenHas(world[v].datacenters, (x: Info) => x.id in ids);
  }

  // ----- From the cache -----

  /** Of a cached listing a query is answered, in its order, with what it asks for: the IDs, else the cluster of a host,
      else a cluster or host of a pool, else the datacenter. */
  lemma {:induction false} FilteredIs(kind: Kind, q: Query, infos: seq<Info>)
    ensures Filtered(kind, q, infos) == Chosen(infos, (x: Info) =>
      if q.ids != [] then x.id in q.ids
      else if kind == Host && q.clusterID != "" then x.clusterID == q.clusterID
      else if kind == ResourcePool && (q.clusterID != "" || q.hostID != "") then
        x.clusterID == q.clusterID || x.hostID == q.hostID
      else q.datacenterID != "" ==> x.datacenterID == q.datacenterID)
  {
    if infos != [] {
      FilteredIs(kind, q, infos[..|infos| - 1]);
    }
  }

  // ----- From vCenter -----

  function Infos(os: seq<Object>): seq<Info> {
    seq(|os|, i requires 0 <= i < |os| => os[i].info)
  }

  function Joined<T>(parts: seq<seq<T>>): seq<T> {
    if parts == [] then [] else Joined(parts[..|parts| - 1]) + parts[|parts| - 1]
  }

  /** The objects of a kind in each of the datacenters, in the order of the inventory; none if it cannot be read. */
  function PerDatacenter(inv: Inventory, kind: Kind, dcs: seq<Info>, failing: set<string>): seq<seq<Info>> {
    seq(|dcs|, i requires 0 <= i < |dcs| =>
      if dcs[i].id in failing then []
      else Infos(Chosen(inv.objects, (o: Object) => o.kind == kind && o.info.datacenterID == dcs[i].id)))
  }

  lemma {:induction false} UnderIs(objects: seq<Object>, kind: Kind, id: string)
    ensures Under(objects, kind, id) == Chosen(objects, (o: Object) => o.kind == kind && o.info.datacenterID == id)
    ensures Built(Under(objects, kind, id), id) == Infos(Under(objects, kind, id))
  {
    if objects != [] {
      var n := |objects| - 1;
      UnderIs(objects[..n], kind, id);
      var before, now := Under(objects[..n], kind, id), Under(objects, kind, id);
      if now != before {
        assert now[..|now| - 1] == before;
        assert Infos(now) == Infos(before) + [objects[n].info];
      }
    }
  }

  /** A listing goes through the datacenters one by one, leaving out those that cannot be read. */
  lemma {:induction false} ListedIs(inv: Inventory, kind: Kind, dcs: seq<Info>, failing: set<string>)
    ensures Listed(inv, kind, dcs, failing) == Joined(PerDatacenter(inv, kind, dcs, failing))
  {
    if dcs != [] {
      var n := |dcs| - 1;
      ListedIs(inv, kind, dcs[..n], failing);
      UnderIs(inv.objects, kind, dcs[n].id);
      var parts := PerDatacenter(inv, kind, dcs, failing);
      assert parts[..n] == PerDatacenter(inv, kind, dcs[..n], failing);
      assert parts[n] == BuiltFrom(ReadDatacenter(inv, kind, dcs[n].id, failing), dcs[n].id);
    }
  }

  predicate Exists(inv: Inventory, kind: Kind, id: string) {
    exists o :: o in inv.objects && o.kind == kind && o.info.id == id
  }

  function IDsInOrder(infos: seq<Info>): seq<string> {
    seq(|infos|, i requires 0 <= i < |infos| => infos[i].id)
  }

  /** Asked for by ID the objects that exist are answered, in request order, without their datacenter; resource pools
      never are (`PoolsByID`). */
  lemma {:induction false} ByIDsIs(inv: Inventory, kind: Kind, ids: seq<string>)
    requires kind != ResourcePool
    ensures IDsInOrder(ByIDs(inv, kind, ids)) == Chosen(ids, (id: string) => Exists(inv, kind, id))
    ensures forall x :: x in ByIDs(inv, kind, ids) ==>
      exists o :: o in inv.objects && o.kind == kind && x == o.info.(datacenterID := "")
  {
    if ids != [] {
      var n := |ids| - 1;
      ByIDsIs(inv, kind, ids[..n]);
      FindHas(inv.objects, kind, ids[n]);
      var before, read := ByIDs(inv, kind, ids[..n]), ReadObject(inv, kind, ids[n]);
      assert Exists(inv, kind, ids[n]) <==> read.Some?;
      if read.Some? {
        assert IDsInOrder(before + [Build(read.value, "")]) == IDsInOrder(before) + [ids[n]];
      }
    }
  }

  // ----- After any run -----

  /** After any run, with any steps between a query's two looks into the cache, the objects answered are exactly those
      asked for: by ID, hosts by cluster, by datacenter, or all of the kind. */
  lemma {:induction false} WhatIsAnswered(s: Settings, world: World, steps: seq<Step>, between: seq<Step>, v: string,
    kind: Kind, q: Query, id: string)
    requires AllPossible(world, steps) && AllPossible(world, between)
    requires v in world && WellFormed(world[v])
    requires kind == ResourcePool ==> q.ids == [] && q.clusterID == "" && q.hostID == ""
    ensures
      var first := Run(map[], s, world, steps);
      var dcs := SeenDatacenters(Run(first, s, world, between), s, v, world[v]);
      var answer := Answer(Seen(first, s, v, KindKey(v, kind)), dcs, world[v], kind, q, {});
      (exists x :: x in answer && x.id == id) <==>
        exists o :: o in world[v].objects && o.kind == kind && o.info.id == id &&
          if q.ids != [] then id in q.ids
          else if kind == Host && q.clusterID != "" then o.info.clusterID == q.clusterID
          else q.datacenterID != "" ==> o.info.datacenterID == q.datacenterID
  {
    CacheIsTransparent(s, world, steps, between, v, kind, q);
    var first := Run(map[], s, world, steps);
    var dcs := SeenDatacenters(Run(first, s, world, between), s, v, world[v]);
    var answer := Answer(Seen(first, s, v, KindKey(v, kind)), dcs, world[v], kind, q, {});
    assert id in IDs(answer) <==> id in IDs(Uncached(world[v], kind, q));
    assert id in IDs(answer) <==> exists x :: x in answer && x.id == id;
    DirectHas(world[v], kind, q, id);
  }

  lemma {:induction false} DirectHas(inv: Inventory, kind: Kind, q: Query, id: string)
    requires WellFormed(inv)
    requires kind == ResourcePool ==> q.ids == [] && q.clusterID == "" && q.hostID == ""
    ensures id in IDs(Uncached(inv, kind, q)) <==>
      exists o :: o in inv.objects && o.kind == kind && o.info.id == id &&
        if q.ids != [] then id in q.ids
        else if kind == Host && q.clusterID != "" then o.info.clusterID == q.clusterID
        else q.datacenterID != "" ==> o.info.datacenterID == q.datacenterID
  {
    if q.ids != [] {
      ByIDsHas(inv, kind, q.ids, id);
    } else if kind == Host && q.clusterID != "" {
      OwnedHas(inv, kind, q, id);
    } else {
      ListingHas(inv, kind, q, id);
    }
  }

  lemma {:induction false} ListingHas(inv: Inventory, kind: Kind, q: Query, id: string)
    requires WellFormed(inv) && q.ids == [] && !ByOwner(kind, q)
    ensures id in IDs(Uncached(inv, kind, q)) <==>
      exists o :: o in inv.objects && o.kind == kind && o.info.id == id
                  && (q.datacenterID != "" ==> o.info.datacenterID == q.datacenterID)
  {
    var answer := Uncached(inv, kind, q);
    if id in IDs(answer) {
      var x :| x in answer && x.id == id;
      BuiltUnderHas(inv, kind, q.datacenterID, x);
      FullHas(inv, kind, x);
      assert Object(kind, x) in inv.objects;
    }
    if o :| o in inv.objects && o.kind == kind && o.info.id == id
            && (q.datacenterID != "" ==> o.info.datacenterID == q.datacenterID)
    {
      assert o == Object(kind, o.info);
      BuiltUnderHas(inv, kind, q.datacenterID, o.info);
      FullHas(inv, kind, o.info);
      assert o.info in answer;
    }
  }

  // ----- What is stored, and where -----

  lemma KeyNames(v: string)
    ensures SlotKey(v, Datacenters) == v + "::" + "Datacenter"
    ensures SlotKey(v, Of(Cluster)) == v + "::" + "ComputeResource"
    ensures SlotKey(v, Of(Datastore)) == v + "::" + "Datastore"
    ensures SlotKey(v, Of(Host)) == v + "::" + "HostSystem"
    ensures SlotKey(v, Of(Network)) == v + "::" + "Network"
    ensures SlotKey(v, Of(ResourcePool)) == v + "::" + (v + "::" + "ResourcePool")
  {
  }

  /** A query for a whole listing that finds none stores it, unless it is ignored; others store nothing. */
  lemma WhatAQueryStores(items: Items, s: Settings, v: string, inv: Inventory, kind: Kind, q: Query)
    requires SlotKey(v, Of(kind)) !in items && SeenDatacenters(items, s, v, inv) == inv.datacenters
    ensures
      var after := AfterQuery(items, s, v, inv, kind, q, {});
      var all := q.ids == [] && q.datacenterID == "" && !(kind == Host && q.clusterID != "")
        && !(kind == ResourcePool && (q.clusterID != "" || q.hostID != ""));
      && (!all ==> after == items)
      && (SlotKey(v, Of(kind)) in after <==>
            && all && inv.datacenters != [] && s.enable
            && !exists i :: 0 <= i < |s.ignorePrefixes| && s.ignorePrefixes[i] <= SlotKey(v, Of(kind)))
      && (SlotKey(v, Of(kind)) in after ==> after[SlotKey(v, Of(kind))] == Listing(Full(inv, kind)))
      && (forall k :: k in items ==> k in after && after[k] == items[k])
  {
    SlotKeyInjective(v, Of(kind), v, Datacenters);
  }
}
