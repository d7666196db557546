/** The cached facade against the uncached one: over every run on a fixed inventory they answer alike,
    except where resource pools are asked for by ID or by owner. */
module CacheRuns {
  import opened Wrappers
  import opened VCCache
  import opened Inventory

  type World = map<string, Inventory>

  /** IDs within a datacenter list or a kind are unique, every object lies under a listed datacenter,
      and a resource pool belongs to a cluster or to a single host. */
  ghost predicate WellFormed(inv: Inventory) {
    && (forall i :: 0 <= i < |inv.datacenters| ==> inv.datacenters[i].id != "")
    && (forall i, j :: 0 <= i < j < |inv.datacenters| ==> inv.datacenters[i].id != inv.datacenters[j].id)
    && (forall o :: o in inv.objects ==>
          exists i :: 0 <= i < |inv.datacenters| && inv.datacenters[i].id == o.info.datacenterID)
    && (forall o, p :: o in inv.objects && p in inv.objects && o.kind == p.kind && o.info.id == p.info.id ==> o == p)
    && (forall o :: o in inv.objects && o.kind == ResourcePool ==> (o.info.clusterID == "") != (o.info.hostID == ""))
  }

  // ----- What listings contain -----

  lemma {:induction false} UnderHas(objects: seq<Object>, kind: Kind, dc: string, o: Object)
    ensures o in Under(objects, kind, dc) <==> o in objects && o.kind == kind && o.info.datacenterID == dc
  {
    if objects != [] {
      var n := |objects| - 1;
      UnderHas(objects[..n], kind, dc, o);
      assert objects == objects[..n] + [objects[n]];
    }
  }

  lemma {:induction false} UnderClusterHas(objects: seq<Object>, kind: Kind, c: string, o: Object)
    ensures o in UnderCluster(objects, kind, c) <==> o in objects && o.kind == kind && o.info.clusterID == c
  {
    if objects != [] {
      var n := |objects| - 1;
      UnderClusterHas(objects[..n], kind, c, o);
      assert objects == objects[..n] + [objects[n]];
    }
  }

  lemma {:induction false} UnderHostHas(objects: seq<Object>, kind: Kind, h: string, o: Object)
    ensures o in UnderHost(objects, kind, h) <==> o in objects && o.kind == kind && o.info.hostID == h
  {
    if objects != [] {
      var n := |objects| - 1;
      UnderHostHas(objects[..n], kind, h, o);
      assert objects == objects[..n] + [objects[n]];
    }
  }

  lemma {:induction false} BuiltHas(os: seq<Object>, dc: string, x: Info)
    ensures x in Built(os, dc) <==> exists o :: o in os && Build(o, dc) == x
  {
    if os != [] {
      var n := |os| - 1;
      BuiltHas(os[..n], dc, x);
      assert os == os[..n] + [os[n]];
    }
  }

  lemma {:induction false} FilteredHas(kind: Kind, q: Query, infos: seq<Info>, x: Info)
    ensures x in Filtered(kind, q, infos) <==> x in infos && Keeps(kind, q, x)
  {
    if infos != [] {
      var n := |infos| - 1;
      FilteredHas(kind, q, infos[..n], x);
      assert infos == infos[..n] + [infos[n]];
    }
  }

  lemma {:induction false} FindHas(objects: seq<Object>, kind: Kind, id: string)
    ensures Find(objects, kind, id).Some? ==>
              var o := Find(objects, kind, id).value; o in objects && o.kind == kind && o.info.id == id
    ensures Find(objects, kind, id).None? ==> forall o :: o in objects && o.kind == kind ==> o.info.id != id
  {
    if objects != [] {
      FindHas(objects[1..], kind, id);
      assert objects == [objects[0]] + objects[1..];
    }
  }

  /** A container view of a datacenter reports each object as it is. */
  lemma {:induction false} BuiltUnderHas(inv: Inventory, kind: Kind, dc: string, x: Info)
    ensures x in Built(Under(inv.objects, kind, dc), dc) <==> Object(kind, x) in inv.objects && x.datacenterID == dc
  {
    var os := Under(inv.objects, kind, dc);
    BuiltHas(os, dc, x);
    forall o
      ensures o in os && Build(o, dc) == x <==> o in os && o == Object(kind, x) && x.datacenterID == dc
    {
      UnderHas(inv.objects, kind, dc, o);
    }
    UnderHas(inv.objects, kind, dc, Object(kind, x));
  }

  predicate Among(dcs: seq<Info>, id: string) {
    exists i :: 0 <= i < |dcs| && dcs[i].id == id
  }

  lemma AmongLast(dcs: seq<Info>, id: string)
    requires dcs != []
    ensures Among(dcs, id) <==> Among(dcs[..|dcs| - 1], id) || dcs[|dcs| - 1].id == id
  {
    var n := |dcs| - 1;
    if i :| 0 <= i < |dcs| && dcs[i].id == id && i < n {
      assert dcs[..n][i].id == id;
    }
    if i :| 0 <= i < n && dcs[..n][i].id == id {
      assert dcs[i].id == id;
    }
    assert dcs[n].id == id ==> Among(dcs, id);
  }

  lemma {:induction false} ListedHas(inv: Inventory, kind: Kind, dcs: seq<Info>, failing: set<string>, x: Info)
    ensures x in Listed(inv, kind, dcs, failing) <==>
            Object(kind, x) in inv.objects && Among(dcs, x.datacenterID) && x.datacenterID !in failing
  {
    if dcs != [] {
      var n := |dcs| - 1;
      ListedHas(inv, kind, dcs[..n], failing, x);
      AmongLast(dcs, x.datacenterID);
      BuiltUnderHas(inv, kind, dcs[n].id, x);
    }
  }

  /** The full listing of a kind holds exactly the objects of the kind. */
  lemma FullHas(inv: Inventory, kind: Kind, x: Info)
    requires WellFormed(inv)
    ensures x in Full(inv, kind) <==> Object(kind, x) in inv.objects
  {
    ListedHas(inv, kind, inv.datacenters, {}, x);
    if Object(kind, x) in inv.objects {
      assert Object(kind, x).info.datacenterID == x.datacenterID;
    }
  }

  // ----- Filtering a full listing -----

  predicate ByDatacenterOnly(kind: Kind, q: Query) {
    q.ids == [] && !ByOwner(kind, q) && q.datacenterID != ""
  }

  lemma {:induction false} FilteredConcat(kind: Kind, q: Query, a: seq<Info>, b: seq<Info>)
    ensures Filtered(kind, q, a + b) == Filtered(kind, q, a) + Filtered(kind, q, b)
  {
    if b == [] {
      assert a + b == a;
    } else {
      var n := |b| - 1;
      assert (a + b)[..|a + b| - 1] == a + b[..n];
      FilteredConcat(kind, q, a, b[..n]);
    }
  }

  lemma {:induction false} FilteredBuilt(inv: Inventory, kind: Kind, q: Query, os: seq<Object>, dc: string)
    requires ByDatacenterOnly(kind, q)
    ensures Filtered(kind, q, Built(os, dc)) == if dc == q.datacenterID then Built(os, dc) else []
  {
    if os != [] {
      var n := |os| - 1;
      FilteredBuilt(inv, kind, q, os[..n], dc);
      var b := Built(os, dc);
      assert b[..|b| - 1] == Built(os[..n], dc);
    }
  }

  /** Filtering the listing by a datacenter gives what its container view gives. */
  lemma {:induction false} FilteredListed(inv: Inventory, kind: Kind, q: Query, dcs: seq<Info>)
    requires ByDatacenterOnly(kind, q)
    requires forall i, j :: 0 <= i < j < |dcs| ==> dcs[i].id != dcs[j].id
    ensures Filtered(kind, q, Listed(inv, kind, dcs, {})) ==
            if Among(dcs, q.datacenterID) then Built(Under(inv.objects, kind, q.datacenterID), q.datacenterID) else []
  {
    if dcs != [] {
      var n := |dcs| - 1;
      FilteredListed(inv, kind, q, dcs[..n]);
      AmongLast(dcs, q.datacenterID);
      var os := Under(inv.objects, kind, dcs[n].id);
      FilteredConcat(kind, q, Listed(inv, kind, dcs[..n], {}), Built(os, dcs[n].id));
      FilteredBuilt(inv, kind, q, os, dcs[n].id);
    }
  }

  // ----- One query -----

  /** What a query sees of a listing that is fully cached or not at all. */
  predicate NoneOrAll(seen: seq<Info>, all: seq<Info>) {
    seen == [] || seen == all
  }

  /** The answer of the uncached facade. */
  function Uncached(inv: Inventory, kind: Kind, q: Query): seq<Info> {
    Direct(inv, kind, q, inv.datacenters, {})
  }

  function IDs(infos: seq<Info>): set<string> {
    set x | x in infos :: x.id
  }

  /** Whatever two looks into the cache saw, unfiltered and by datacenter the answer is the uncached one. */
  lemma SameSequence(inv: Inventory, kind: Kind, q: Query, cached: seq<Info>, dcs: seq<Info>)
    requires WellFormed(inv) && NoneOrAll(cached, Full(inv, kind)) && dcs == inv.datacenters
    requires q.ids == [] && !ByOwner(kind, q)
    ensures Answer(cached, dcs, inv, kind, q, {}) == Uncached(inv, kind, q)
  {
    if q.datacenterID == "" {
      UnfilteredKeepsAll(kind, q, cached);
    } else if cached != [] {
      FilteredListed(inv, kind, q, inv.datacenters);
    }
  }

  /** The IDs a direct query by IDs finds. */
  lemma {:induction false} ByIDsHas(inv: Inventory, kind: Kind, ids: seq<string>, id: string)
    requires kind != ResourcePool
    ensures id in IDs(ByIDs(inv, kind, ids)) <==>
      id in ids && exists o :: o in inv.objects && o.kind == kind && o.info.id == id
  {
    if ids != [] {
      var n := |ids| - 1;
      ByIDsHas(inv, kind, ids[..n], id);
      FindHas(inv.objects, kind, ids[n]);
      assert ids == ids[..n] + [ids[n]];
      var found := ReadObject(inv, kind, ids[n]);
      if found.Some? {
        IDsConcat(ByIDs(inv, kind, ids[..n]), Build(found.value, ""));
      } else {
        assert ByIDs(inv, kind, ids) == ByIDs(inv, kind, ids[..n]);
      }
    }
  }

  lemma IDsConcat(a: seq<Info>, x: Info)
    ensures IDs(a + [x]) == IDs(a) + {x.id}
  {
    forall id
      ensures id in IDs(a + [x]) <==> id in IDs(a) + {x.id}
    {
      assert id == x.id ==> x in a + [x];
      assert forall y :: y in a ==> y in a + [x];
      assert forall y :: y in a + [x] ==> y in a || y == x;
    }
  }

  lemma {:induction false} FilteredIDs(inv: Inventory, kind: Kind, q: Query, id: string)
    requires WellFormed(inv)
    ensures id in IDs(Filtered(kind, q, Full(inv, kind))) <==>
            exists o :: o in inv.objects && o.kind == kind && o.info.id == id && Keeps(kind, q, o.info)
  {
    var f := Filtered(kind, q, Full(inv, kind));
    if id in IDs(f) {
      var x :| x in f && x.id == id;
      FilteredHas(kind, q, Full(inv, kind), x);
      FullHas(inv, kind, x);
      assert Object(kind, x) in inv.objects;
    }
    if o :| o in inv.objects && o.kind == kind && o.info.id == id && Keeps(kind, q, o.info) {
      FilteredHas(kind, q, Full(inv, kind), o.info);
      FullHas(inv, kind, o.info);
      assert o == Object(kind, o.info);
    }
  }

  lemma OwnedHas(inv: Inventory, kind: Kind, q: Query, id: string)
    requires ByOwner(kind, q)
    ensures id in IDs(OwnedBy(inv, kind, q)) <==>
            exists o :: o in inv.objects && o.kind == kind && o.info.id == id &&
              ((q.clusterID != "" && o.info.clusterID == q.clusterID) ||
               (kind == ResourcePool && q.hostID != "" && o.info.hostID == q.hostID))
  {
    var c := UnderCluster(inv.objects, kind, q.clusterID);
    var h := UnderHost(inv.objects, kind, q.hostID);
    var all := OwnedBy(inv, kind, q);
    if id in IDs(all) {
      var x :| x in all && x.id == id;
      BuiltHas(c, "", x);
      BuiltHas(h, "", x);
      if q.clusterID != "" && x in Built(c, "") {
        var o :| o in c && Build(o, "") == x;
        UnderClusterHas(inv.objects, kind, q.clusterID, o);
      } else {
        var o :| o in h && Build(o, "") == x;
        UnderHostHas(inv.objects, kind, q.hostID, o);
      }
    }
    if o :| o in inv.objects && o.kind == kind && o.info.id == id
            && q.clusterID != "" && o.info.clusterID == q.clusterID
    {
      UnderClusterHas(inv.objects, kind, q.clusterID, o);
      BuiltHas(c, "", Build(o, ""));
      assert Build(o, "") in all;
    }
    if o :| o in inv.objects && o.kind == kind && o.info.id == id
            && kind == ResourcePool && q.hostID != "" && o.info.hostID == q.hostID
    {
      UnderHostHas(inv.objects, kind, q.hostID, o);
      BuiltHas(h, "", Build(o, ""));
      assert Build(o, "") in all;
    }
  }

  lemma EmptyHasNoIDs(infos: seq<Info>)
    ensures infos == [] <==> IDs(infos) == {}
  {
    if infos != [] {
      assert infos[0].id in IDs(infos);
    }
  }

  /** By IDs, and hosts by cluster, the answer names the same objects as the uncached one. */
  lemma SameIDs(inv: Inventory, kind: Kind, q: Query, cached: seq<Info>, dcs: seq<Info>)
    requires WellFormed(inv) && NoneOrAll(cached, Full(inv, kind)) && dcs == inv.datacenters
    requires kind != ResourcePool
    ensures IDs(Answer(cached, dcs, inv, kind, q, {})) == IDs(Uncached(inv, kind, q))
  {
    if q.ids == [] && !ByOwner(kind, q) {
      SameSequence(inv, kind, q, cached, dcs);
    } else if cached != [] {
      forall id
        ensures id in IDs(Filtered(kind, q, cached)) <==> id in IDs(Uncached(inv, kind, q))
      {
        FilteredIDs(inv, kind, q, id);
        if q.ids != [] {
          ByIDsHas(inv, kind, q.ids, id);
        } else {
          OwnedHas(inv, kind, q, id);
        }
      }
    }
  }

  // ----- Resource pools by ID and by owner -----

  /** Asked by ID, a cached listing answers differently exactly when it holds one of the pools. */
  lemma PoolsByID(inv: Inventory, q: Query, dcs: seq<Info>)
    requires WellFormed(inv) && q.ids != []
    ensures Uncached(inv, ResourcePool, q) == []
    ensures Answer(Full(inv, ResourcePool), dcs, inv, ResourcePool, q, {}) == Uncached(inv, ResourcePool, q) <==>
            forall o :: o in inv.objects && o.kind == ResourcePool ==> o.info.id !in q.ids
  {
    NoPoolByID(inv, q.ids);
    var f := Filtered(ResourcePool, q, Full(inv, ResourcePool));
    EmptyHasNoIDs(f);
    if f != [] {
      FilteredIDs(inv, ResourcePool, q, f[0].id);
      assert f[0].id in IDs(f);
    } else {
      forall o | o in inv.objects && o.kind == ResourcePool
        ensures o.info.id !in q.ids
      {
        FilteredIDs(inv, ResourcePool, q, o.info.id);
        assert o.info.id !in IDs(f);
      }
    }
  }

  predicate OwnerMeant(q: Query, o: Object) {
    && (q.hostID == "" && o.info.hostID == "" ==> o.info.clusterID == q.clusterID)
    && (q.clusterID == "" && o.info.clusterID == "" ==> o.info.hostID == q.hostID)
  }

  /** Asked for one cluster, a cached listing answers right exactly when no cluster owns pools but that one;
      asked for one host likewise; asked for both it is always right. */
  lemma PoolsByOwner(inv: Inventory, q: Query, dcs: seq<Info>)
    requires WellFormed(inv) && q.ids == [] && ByOwner(ResourcePool, q) && dcs == inv.datacenters
    ensures IDs(Answer(Full(inv, ResourcePool), dcs, inv, ResourcePool, q, {}))
              == IDs(Uncached(inv, ResourcePool, q)) <==>
            forall o :: o in inv.objects && o.kind == ResourcePool ==> OwnerMeant(q, o)
  {
    var f := IDs(Filtered(ResourcePool, q, Full(inv, ResourcePool)));
    var u := IDs(Uncached(inv, ResourcePool, q));
    EmptyHasNoIDs(Filtered(ResourcePool, q, Full(inv, ResourcePool)));
    forall id | id in u
      ensures id in f
    {
      OwnedAreKept(inv, q, id);
    }
    if forall o :: o in inv.objects && o.kind == ResourcePool ==> OwnerMeant(q, o) {
      forall id | id in f
        ensures id in u
      {
        KeptAreOwned(inv, q, id);
      }
      assert f == u;
    } else {
      var o :| o in inv.objects && o.kind == ResourcePool && !OwnerMeant(q, o);
      StrangerIsKept(inv, q, o);
    }
  }

  lemma {:induction false} OwnedAreKept(inv: Inventory, q: Query, id: string)
    requires WellFormed(inv) && q.ids == [] && ByOwner(ResourcePool, q)
    requires id in IDs(OwnedBy(inv, ResourcePool, q))
    ensures id in IDs(Filtered(ResourcePool, q, Full(inv, ResourcePool)))
  {
    FilteredIDs(inv, ResourcePool, q, id);
    OwnedHas(inv, ResourcePool, q, id);
  }

  lemma {:induction false} KeptAreOwned(inv: Inventory, q: Query, id: string)
    requires WellFormed(inv) && q.ids == [] && ByOwner(ResourcePool, q)
    requires forall o :: o in inv.objects && o.kind == ResourcePool ==> OwnerMeant(q, o)
    requires id in IDs(Filtered(ResourcePool, q, Full(inv, ResourcePool)))
    ensures id in IDs(OwnedBy(inv, ResourcePool, q))
  {
    FilteredIDs(inv, ResourcePool, q, id);
    OwnedHas(inv, ResourcePool, q, id);
  }

  lemma {:induction false} StrangerIsKept(inv: Inventory, q: Query, o: Object)
    requires WellFormed(inv) && q.ids == [] && ByOwner(ResourcePool, q)
    requires o in inv.objects && o.kind == ResourcePool && !OwnerMeant(q, o)
    ensures o.info.id in IDs(Filtered(ResourcePool, q, Full(inv, ResourcePool)))
    ensures o.info.id !in IDs(OwnedBy(inv, ResourcePool, q))
  {
    FilteredIDs(inv, ResourcePool, q, o.info.id);
    OwnedHas(inv, ResourcePool, q, o.info.id);
  }

  // ----- A listing filled while some datacenters could not be read -----

  /** The listing is complete exactly when no object of the kind lies in a failing datacenter. */
  lemma {:induction false} CompleteListing(inv: Inventory, kind: Kind, failing: set<string>)
    requires WellFormed(inv)
    ensures Listed(inv, kind, inv.datacenters, failing) == Full(inv, kind) <==>
            forall o :: o in inv.objects && o.kind == kind ==> o.info.datacenterID !in failing
  {
    var l := Listed(inv, kind, inv.datacenters, failing);
    if forall o :: o in inv.objects && o.kind == kind ==> o.info.datacenterID !in failing {
      NothingMissed(inv, kind, inv.datacenters, failing);
    } else {
      var o :| o in inv.objects && o.kind == kind && o.info.datacenterID in failing;
      ListedHas(inv, kind, inv.datacenters, failing, o.info);
      FullHas(inv, kind, o.info);
      assert o == Object(kind, o.info);
    }
  }

  lemma {:induction false} NothingUnder(objects: seq<Object>, kind: Kind, dc: string)
    requires forall o :: o in objects && o.kind == kind ==> o.info.datacenterID != dc
    ensures Under(objects, kind, dc) == []
  {
    if objects != [] {
      assert objects[|objects| - 1] in objects;
      NothingUnder(objects[..|objects| - 1], kind, dc);
    }
  }

  lemma {:induction false} NothingMissed(inv: Inventory, kind: Kind, dcs: seq<Info>, failing: set<string>)
    requires forall o :: o in inv.objects && o.kind == kind ==> o.info.datacenterID !in failing
    ensures Listed(inv, kind, dcs, failing) == Listed(inv, kind, dcs, {})
  {
    if dcs != [] {
      var n := |dcs| - 1;
      NothingMissed(inv, kind, dcs[..n], failing);
      if dcs[n].id in failing {
        NothingUnder(inv.objects, kind, dcs[n].id);
      }
    }
  }

  /** After a fill that missed some datacenters the listing asked for again is right exactly when
      none of the objects was missed, or all of them were. */
  lemma PartialFillSticks(items: Items, s: Settings, v: string, inv: Inventory, kind: Kind,
    q: Query, failing: set<string>)
    requires WellFormed(inv) && s.enable && !Ignored(s, FullKey(v, kind)) && Unfiltered(kind, q)
    requires FullKey(v, kind) !in items && SeenDatacenters(items, s, v, inv) == inv.datacenters
    ensures var after := AfterFill(items, s, v, inv, kind, failing);
            Answer(Seen(after, s, v, KindKey(v, kind)), inv.datacenters, inv, kind, q, {}) == Full(inv, kind) <==>
              || (forall o :: o in inv.objects && o.kind == kind ==> o.info.datacenterID !in failing)
              || (forall o :: o in inv.objects && o.kind == kind ==> o.info.datacenterID in failing)
  {
    var after := AfterFill(items, s, v, inv, kind, failing);
    var l := Listed(inv, kind, inv.datacenters, failing);
    SlotKeys(v, Of(kind));
    SlotKeyInjective(v, Of(kind), v, Datacenters);
    var seen := Seen(after, s, v, KindKey(v, kind));
    assert seen == l;
    UnfilteredKeepsAll(kind, q, seen);
    CompleteListing(inv, kind, failing);
    if l == [] {
      forall o | o in inv.objects && o.kind == kind
        ensures o.info.datacenterID in failing
      {
        assert o == Object(kind, o.info);
        FullHas(inv, kind, o.info);
        ListedHas(inv, kind, inv.datacenters, {}, o.info);
        ListedHas(inv, kind, inv.datacenters, failing, o.info);
      }
    } else {
      ListedHas(inv, kind, inv.datacenters, failing, l[0]);
      assert Object(kind, l[0]).info.datacenterID !in failing;
    }
  }

  // ----- Runs -----

  /** What the inventory keeps under one key. */
  datatype Slot = Datacenters | Of(kind: Kind)

  function SlotName(slot: Slot): string {
    match slot
    case Datacenters => DATACENTER
    case Of(kind) => TypeName(kind)
  }

  function SlotKey(v: string, slot: Slot): string {
    match slot
    case Datacenters => Key(v, DATACENTER)
    case Of(kind) => FullKey(v, kind)
  }

  function SlotContent(inv: Inventory, slot: Slot): seq<Info> {
    match slot
    case Datacenters => inv.datacenters
    case Of(kind) => Full(inv, kind)
  }

  /** Everything cached of a known vCenter is the complete listing. */
  ghost predicate Consistent(items: Items, world: World) {
    forall v, slot {:trigger SlotKey(v, slot)} ::
      v in world && SlotKey(v, slot) in items ==> items[SlotKey(v, slot)] == Listing(SlotContent(world[v], slot))
  }

  predicate IsTypeName(t: string) {
    t in [DATACENTER, TypeName(Cluster), TypeName(Datastore), TypeName(Host), TypeName(Network), TypeName(ResourcePool)]
  }

  /** What can happen to the shared store. Interleaved calls show as separate steps: a racing fill stores its
      listing whatever is there by then, and a cleaning deletes key by key. */
  datatype Step =
    | QueryStep(vcid: string, kind: Kind, q: Query)
    | DatacenterStep(vcid: string, ids: seq<string>)
    | FillStep(vcid: string, kind: Kind)
    | CleanStep(vcid: string, keys: seq<string>)
    | CleanAllStep(vcid: string)
    | CreateStep(vcid: string)
    | RacingFill(vcid: string, slot: Slot)
    | DeleteStep(key: string)
    | OtherWrite(prefix: string, t: string, entry: Entry)

  predicate Possible(world: World, step: Step) {
    match step
    case DeleteStep(_) => true
    case OtherWrite(_, t, _) => ':' !in t && !IsTypeName(t)
    case _ => step.vcid in world
  }

  function Next(items: Items, s: Settings, world: World, step: Step): Items
    requires Possible(world, step)
  {
    match step
    case QueryStep(v, kind, q) => AfterQuery(items, s, v, world[v], kind, q, {})
    case DatacenterStep(v, ids) => AfterDatacenterQuery(items, s, v, world[v], ids)
    case FillStep(v, kind) => AfterFill(items, s, v, world[v], kind, {})
    case CleanStep(v, keys) => Cleaned(items, v, keys)
    case CleanAllStep(v) => CleanedAll(items, v)
    case CreateStep(v) => Recreated(items, s, v, world[v])
    case RacingFill(v, slot) =>
      if s.enable && !Ignored(s, SlotKey(v, slot)) then items[SlotKey(v, slot) := Listing(SlotContent(world[v], slot))]
      else items
    case DeleteStep(k) => items - {k}
    case OtherWrite(prefix, t, entry) => items[Key(prefix, t) := entry]
  }

  predicate AllPossible(world: World, steps: seq<Step>) {
    forall i :: 0 <= i < |steps| ==> Possible(world, steps[i])
  }

  function Run(items: Items, s: Settings, world: World, steps: seq<Step>): Items
    requires AllPossible(world, steps)
  {
    if steps == [] then items else
    var n := |steps| - 1;
    Next(Run(items, s, world, steps[..n]), s, world, steps[n])
  }

  function Prefix(v: string, slot: Slot): string {
    if slot == Of(ResourcePool) then Key(v, v) else v
  }

  lemma SlotKeys(v: string, slot: Slot)
    ensures SlotKey(v, slot) == Key(Prefix(v, slot), SlotName(slot))
  {
    if slot == Of(ResourcePool) {
      assert v + "::" + (v + "::" + TypeName(ResourcePool)) == v + "::" + v + "::" + TypeName(ResourcePool);
    }
  }

  lemma NamesHaveNoColon(slot: Slot)
    ensures ':' !in SlotName(slot) && IsTypeName(SlotName(slot))
  {
    match slot
    case Datacenters =>
    case Of(Cluster) =>
    case Of(Datastore) =>
    case Of(Host) =>
    case Of(Network) =>
    case Of(ResourcePool) =>
  }

  lemma NamesDiffer(a: Slot, b: Slot)
    ensures SlotName(a) == SlotName(b) ==> a == b
  {
    assert DATACENTER[0] == 'D' && TypeName(Host)[0] == 'H';
    match a
    case Datacenters =>
    case Of(Cluster) =>
    case Of(Datastore) =>
    case Of(Host) =>
    case Of(Network) =>
    case Of(ResourcePool) =>
  }

  /** No two vCenters and no two kinds share a key, whatever the vCenters' IDs are. */
  lemma SlotKeyInjective(v1: string, a: Slot, v2: string, b: Slot)
    ensures SlotKey(v1, a) == SlotKey(v2, b) <==> v1 == v2 && a == b
  {
    SlotKeys(v1, a);
    SlotKeys(v2, b);
    NamesHaveNoColon(a);
    NamesHaveNoColon(b);
    NamesDiffer(a, b);
    if SlotKey(v1, a) == SlotKey(v2, b) {
      KeyInjective(Prefix(v1, a), SlotName(a), Prefix(v2, b), SlotName(b));
      assert Prefix(v1, a)[..|v1|] == v1 && Prefix(v2, b)[..|v2|] == v2;
    }
  }

  // ----- The invariant -----

  lemma FewerStayConsistent(items: Items, fewer: Items, world: World)
    requires Consistent(items, world)
    requires forall k :: k in fewer ==> k in items && fewer[k] == items[k]
    ensures Consistent(fewer, world)
  {
  }

  lemma {:induction false} CleanedIsFewer(items: Items, v: string, keys: seq<string>)
    ensures forall k :: k in Cleaned(items, v, keys) ==> k in items && Cleaned(items, v, keys)[k] == items[k]
  {
    if keys != [] {
      CleanedIsFewer(items, v, keys[..|keys| - 1]);
    }
  }

  /** Storing a complete listing in its own place keeps the store consistent. */
  lemma RightEntryStaysConsistent(items: Items, world: World, v: string, slot: Slot)
    requires Consistent(items, world) && v in world
    ensures Consistent(items[SlotKey(v, slot) := Listing(SlotContent(world[v], slot))], world)
  {
    var after := items[SlotKey(v, slot) := Listing(SlotContent(world[v], slot))];
    forall w, other {:trigger SlotKey(w, other)} | w in world && SlotKey(w, other) in after
      ensures after[SlotKey(w, other)] == Listing(SlotContent(world[w], other))
    {
      SlotKeyInjective(v, slot, w, other);
    }
  }

  lemma OtherEntryStaysConsistent(items: Items, world: World, prefix: string, t: string,
    entry: Entry)
    requires Consistent(items, world) && ':' !in t && !IsTypeName(t)
    ensures Consistent(items[Key(prefix, t) := entry], world)
  {
    var after := items[Key(prefix, t) := entry];
    forall w, other {:trigger SlotKey(w, other)} | w in world && SlotKey(w, other) in after
      ensures after[SlotKey(w, other)] == Listing(SlotContent(world[w], other))
    {
      OtherKeyIsNoSlot(prefix, t, w, other);
    }
  }

  lemma OtherKeyIsNoSlot(prefix: string, t: string, v: string, slot: Slot)
    requires ':' !in t && !IsTypeName(t)
    ensures Key(prefix, t) != SlotKey(v, slot)
  {
    SlotKeys(v, slot);
    NamesHaveNoColon(slot);
    if Key(prefix, t) == Key(Prefix(v, slot), SlotName(slot)) {
      KeyInjective(prefix, t, Prefix(v, slot), SlotName(slot));
    }
  }

  /** A look into a consistent store sees everything or nothing. */
  lemma SeesNoneOrAll(items: Items, s: Settings, world: World, v: string, kind: Kind)
    requires Consistent(items, world) && v in world
    ensures NoneOrAll(Seen(items, s, v, KindKey(v, kind)), Full(world[v], kind))
    ensures SeenDatacenters(items, s, v, world[v]) == world[v].datacenters
  {
    assert SlotKey(v, Of(kind)) == Key(v, KindKey(v, kind));
    assert SlotKey(v, Datacenters) == Key(v, DATACENTER);
  }

  lemma DatacentersKeep(items: Items, s: Settings, world: World, v: string)
    requires Consistent(items, world) && v in world
    ensures Consistent(AfterDatacenters(items, s, v, world[v]), world)
  {
    RightEntryStaysConsistent(items, world, v, Datacenters);
  }

  lemma FillKeeps(items: Items, s: Settings, world: World, v: string, kind: Kind)
    requires Consistent(items, world) && v in world
    ensures Consistent(AfterFill(items, s, v, world[v], kind, {}), world)
  {
    DatacentersKeep(items, s, world, v);
    SeesNoneOrAll(items, s, world, v, kind);
    RightEntryStaysConsistent(AfterDatacenters(items, s, v, world[v]), world, v, Of(kind));
  }

  lemma RecreateKeeps(items: Items, s: Settings, world: World, v: string)
    requires Consistent(items, world) && v in world
    ensures Consistent(Recreated(items, s, v, world[v]), world)
  {
    if s.enable {
      var clean := CleanedAll(items, v);
      FewerStayConsistent(items, clean, world);
      DatacentersKeep(clean, s, world, v);
      var a := AfterDatacenters(clean, s, v, world[v]);
      FillKeeps(a, s, world, v, Datastore);
      var b := AfterFill(a, s, v, world[v], Datastore, {});
      FillKeeps(b, s, world, v, ResourcePool);
      var c := AfterFill(b, s, v, world[v], ResourcePool, {});
      FillKeeps(c, s, world, v, Cluster);
      var d := AfterFill(c, s, v, world[v], Cluster, {});
      FillKeeps(d, s, world, v, Host);
      FillKeeps(AfterFill(d, s, v, world[v], Host, {}), s, world, v, Network);
    }
  }

  lemma NextKeepsConsistent(items: Items, s: Settings, world: World, step: Step)
    requires Consistent(items, world) && Possible(world, step)
    ensures Consistent(Next(items, s, world, step), world)
  {
    match step
    case QueryStep(v, kind, q) => FillKeeps(items, s, world, v, kind);
    case DatacenterStep(v, ids) => DatacentersKeep(items, s, world, v);
    case FillStep(v, kind) => FillKeeps(items, s, world, v, kind);
    case CleanStep(v, keys) =>
      CleanedIsFewer(items, v, keys);
      FewerStayConsistent(items, Cleaned(items, v, keys), world);
    case CleanAllStep(v) => FewerStayConsistent(items, CleanedAll(items, v), world);
    case CreateStep(v) => RecreateKeeps(items, s, world, v);
    case RacingFill(v, slot) => RightEntryStaysConsistent(items, world, v, slot);
    case DeleteStep(k) => FewerStayConsistent(items, items - {k}, world);
    case OtherWrite(prefix, t, entry) => OtherEntryStaysConsistent(items, world, prefix, t, entry);
  }

  /** Over every run, what is cached stays complete. */
  lemma {:induction false} RunKeepsConsistent(items: Items, s: Settings, world: World, steps: seq<Step>)
    requires Consistent(items, world) && AllPossible(world, steps)
    ensures Consistent(Run(items, s, world, steps), world)
  {
    if steps != [] {
      var n := |steps| - 1;
      RunKeepsConsistent(items, s, world, steps[..n]);
      NextKeepsConsistent(Run(items, s, world, steps[..n]), s, world, steps[n]);
    }
  }

  /** The cached facade refines the uncached one. After any run from an empty store, and with any further steps
      between a query's look for its listing and its look for the datacenters, the query answers as without
      a cache: the same sequence unfiltered and by datacenter, the same IDs otherwise. */
  lemma {:induction false} CacheIsTransparent(s: Settings, world: World, steps: seq<Step>, between: seq<Step>,
                                             v: string, kind: Kind, q: Query)
    requires AllPossible(world, steps) && AllPossible(world, between)
    requires v in world && WellFormed(world[v])
    ensures var first := Run(map[], s, world, steps);
            var later := Run(first, s, world, between);
            var dcs := SeenDatacenters(later, s, v, world[v]);
            var answer := Answer(Seen(first, s, v, KindKey(v, kind)), dcs, world[v], kind, q, {});
            && (q.ids == [] && !ByOwner(kind, q) ==> answer == Uncached(world[v], kind, q))
            && (kind != ResourcePool ==> IDs(answer) == IDs(Uncached(world[v], kind, q)))
  {
    var first := Run(map[], s, world, steps);
    RunKeepsConsistent(map[], s, world, steps);
    RunKeepsConsistent(first, s, world, between);
    var later := Run(first, s, world, between);
    SeesNoneOrAll(first, s, world, v, kind);
    SeesNoneOrAll(later, s, world, v, kind);
    var cached := Seen(first, s, v, KindKey(v, kind));
    var dcs := SeenDatacenters(later, s, v, world[v]);
    if q.ids == [] && !ByOwner(kind, q) {
      SameSequence(world[v], kind, q, cached, dcs);
    }
    if kind != ResourcePool {
      SameIDs(world[v], kind, q, cached, dcs);
    }
  }

  /** Datacenters, too, are answered in sequence as without a cache. */
  lemma {:induction false} DatacentersAreTransparent(s: Settings, world: World, steps: seq<Step>, v: string,
    ids: seq<string>)
    requires AllPossible(world, steps) && v in world
    ensures DatacenterAnswer(Seen(Run(map[], s, world, steps), s, v, DATACENTER), world[v], ids) ==
            DatacenterAnswer([], world[v], ids)
  {
    var items := Run(map[], s, world, steps);
    RunKeepsConsistent(map[], s, world, steps);
    assert SlotKey(v, Datacenters) == Key(v, DATACENTER);
    assert NoneOrAll(Seen(items, s, v, DATACENTER), world[v].datacenters);
  }

  // ----- Ignored keys -----

  /** A listing under an ignored prefix that is absent stays absent in every run. */
  lemma {:induction false} IgnoredStaysAbsent(items: Items, s: Settings, world: World, steps: seq<Step>, v: string,
    slot: Slot)
    requires AllPossible(world, steps)
    requires Ignored(s, SlotKey(v, slot)) && SlotKey(v, slot) !in items
    ensures SlotKey(v, slot) !in Run(items, s, world, steps)
  {
    if steps != [] {
      var n := |steps| - 1;
      IgnoredStaysAbsent(items, s, world, steps[..n], v, slot);
      IgnoredNotStored(Run(items, s, world, steps[..n]), s, world, steps[n], v, slot);
    }
  }

  lemma IgnoredNotStored(items: Items, s: Settings, world: World, step: Step, v: string, slot: Slot)
    requires Possible(world, step)
    requires Ignored(s, SlotKey(v, slot)) && SlotKey(v, slot) !in items
    ensures SlotKey(v, slot) !in Next(items, s, world, step)
  {
    var k := SlotKey(v, slot);
    match step
    case QueryStep(w, kind, q) => FillIgnores(items, s, w, world[w], kind, k);
    case DatacenterStep(w, ids) =>
    case FillStep(w, kind) => FillIgnores(items, s, w, world[w], kind, k);
    case CleanStep(w, keys) => CleanedIsFewer(items, w, keys);
    case CleanAllStep(w) =>
    case CreateStep(w) => RecreateIgnores(items, s, w, world[w], k);
    case RacingFill(w, other) =>
    case DeleteStep(other) =>
    case OtherWrite(prefix, t, entry) => OtherKeyIsNoSlot(prefix, t, v, slot);
  }

  lemma FillIgnores(items: Items, s: Settings, w: string, inv: Inventory, kind: Kind, k: string)
    requires Ignored(s, k) && k !in items
    ensures k !in AfterFill(items, s, w, inv, kind, {})
  {
    assert k !in AfterDatacenters(items, s, w, inv);
  }

  lemma RecreateIgnores(items: Items, s: Settings, w: string, inv: Inventory, k: string)
    requires Ignored(s, k) && k !in items
    ensures k !in Recreated(items, s, w, inv)
  {
    if s.enable {
      var a := AfterDatacenters(CleanedAll(items, w), s, w, inv);
      FillIgnores(a, s, w, inv, Datastore, k);
      var b := AfterFill(a, s, w, inv, Datastore, {});
      FillIgnores(b, s, w, inv, ResourcePool, k);
      var c := AfterFill(b, s, w, inv, ResourcePool, {});
      FillIgnores(c, s, w, inv, Cluster, k);
      var d := AfterFill(c, s, w, inv, Cluster, {});
      FillIgnores(d, s, w, inv, Host, k);
      FillIgnores(AfterFill(d, s, w, inv, Host, {}), s, w, inv, Network, k);
    }
  }

  // ----- Creating the cache anew -----

  /** A full key carries its vCenter's ID in front and is no refresh ticker's. */
  lemma SlotIsCleaned(v: string, slot: Slot)
    ensures CleanedBy(v, SlotKey(v, slot))
  {
    assert v <= SlotKey(v, slot);
    SlotKeys(v, slot);
    NoTicker(Prefix(v, slot), slot);
  }

  lemma NoTicker(prefix: string, slot: Slot)
    ensures !HasSuffix(Key(prefix, SlotName(slot)), REFRESH_TICKER)
  {
    assert ':' !in REFRESH_TICKER;
    ColonAt(prefix, SlotName(slot), REFRESH_TICKER);
    var k := Key(prefix, TypeName(Cluster));
    assert REFRESH_TICKER[12] == 'r';
    assert k[|k| - 13..][12] == 'e';
  }

  /** What a fill of one kind leaves, told for every slot at once. */
  lemma FillSlot(items: Items, s: Settings, v: string, inv: Inventory, kind: Kind, slot: Slot)
    requires s.enable && SeenDatacenters(items, s, v, inv) == inv.datacenters && inv.datacenters != []
    ensures var after := AfterFill(items, s, v, inv, kind, {});
            && SeenDatacenters(after, s, v, inv) == inv.datacenters
            && (SlotKey(v, slot) in items ==>
                  SlotKey(v, slot) in after && after[SlotKey(v, slot)] == items[SlotKey(v, slot)])
            && (slot == Of(kind) && SlotKey(v, slot) !in items && !Ignored(s, SlotKey(v, slot)) ==>
                  SlotKey(v, slot) in after && after[SlotKey(v, slot)] == Listing(Full(inv, kind)))
            && (slot != Of(kind) && slot != Datacenters && SlotKey(v, slot) !in items ==> SlotKey(v, slot) !in after)
  {
    SlotKeyInjective(v, slot, v, Of(kind));
    SlotKeyInjective(v, slot, v, Datacenters);
    SlotKeyInjective(v, Of(kind), v, Datacenters);
  }

  /** The current listing a slot is for. */
  function Current(inv: Inventory, slot: Slot): seq<Info> {
    match slot
    case Datacenters => inv.datacenters
    case Of(kind) => Full(inv, kind)
  }

  /** Whatever was cached before, creating the cache anew stores the current listing of the datacenters and of every
      kind, as far as it is not ignored. */
  lemma RecreatedIsCurrent(items: Items, s: Settings, v: string, inv: Inventory, slot: Slot)
    requires s.enable && inv.datacenters != [] && !Ignored(s, SlotKey(v, slot))
    ensures SlotKey(v, slot) in Recreated(items, s, v, inv)
    ensures Recreated(items, s, v, inv)[SlotKey(v, slot)] == Listing(Current(inv, slot))
  {
    SlotIsCleaned(v, slot);
    SlotIsCleaned(v, Datacenters);
    SlotKeyInjective(v, slot, v, Datacenters);
    var a := AfterDatacenters(CleanedAll(items, v), s, v, inv);
    FillSlot(a, s, v, inv, Datastore, slot);
    var b := AfterFill(a, s, v, inv, Datastore, {});
    FillSlot(b, s, v, inv, ResourcePool, slot);
    var c := AfterFill(b, s, v, inv, ResourcePool, {});
    FillSlot(c, s, v, inv, Cluster, slot);
    var d := AfterFill(c, s, v, inv, Cluster, {});
    FillSlot(d, s, v, inv, Host, slot);
    FillSlot(AfterFill(d, s, v, inv, Host, {}), s, v, inv, Network, slot);
  }

  lemma FillOfNothing(items: Items, s: Settings, v: string, inv: Inventory, kind: Kind)
    requires inv.datacenters == [] && Key(v, DATACENTER) !in items
    ensures AfterFill(items, s, v, inv, kind, {}) == items
  {
  }

  /** With no datacenter left, creating the cache anew leaves no listing. */
  lemma RecreatedFromNothing(items: Items, s: Settings, v: string, inv: Inventory, slot: Slot)
    requires s.enable && inv.datacenters == []
    ensures SlotKey(v, slot) !in Recreated(items, s, v, inv)
  {
    SlotIsCleaned(v, slot);
    SlotIsCleaned(v, Datacenters);
    var clean := CleanedAll(items, v);
    FillOfNothing(clean, s, v, inv, Datastore);
    FillOfNothing(clean, s, v, inv, ResourcePool);
    FillOfNothing(clean, s, v, inv, Cluster);
    FillOfNothing(clean, s, v, inv, Host);
    FillOfNothing(clean, s, v, inv, Network);
  }

  /** The worker pools live in the same store, and cleaning a vCenter drops them with its listings. */
  lemma CleanAllDropsPools(items: Items, v: string)
    ensures Key(v, "operation") !in CleanedAll(items, v) && Key(v, "deployment") !in CleanedAll(items, v)
    ensures Key(v, REFRESH_TICKER) in items <==> Key(v, REFRESH_TICKER) in CleanedAll(items, v)
  {
    assert ':' !in REFRESH_TICKER;
    ColonAt(v, "operation", REFRESH_TICKER);
    ColonAt(v, "deployment", REFRESH_TICKER);
    var k := Key(v, REFRESH_TICKER);
    assert k[|k| - 13..] == REFRESH_TICKER;
  }

  /** Resource pools are stored under a key prefixed twice. Cleaning the kind by its name leaves them there. */
  lemma {:induction false} CleanMissesPools(items: Items, v: string)
    requires FullKey(v, ResourcePool) in items
    ensures FullKey(v, ResourcePool) in Cleaned(items, v, [TypeName(ResourcePool)])
  {
    assert |FullKey(v, ResourcePool)| > |Key(v, TypeName(ResourcePool))|;
    assert Cleaned(items, v, []) == items && [TypeName(ResourcePool)][..0] == [];
  }

  /** And configuring the kind as ignored by its name works only for a vCenter whose ID starts with that name. */
  lemma IgnoringPoolsByName(v: string)
    ensures Key(v, TypeName(ResourcePool)) <= FullKey(v, ResourcePool) <==> TypeName(ResourcePool) <= v
  {
    var t := TypeName(ResourcePool);
    var k := FullKey(v, ResourcePool);
    assert k[|v| + 2..] == Key(v, t) && Key(v, t)[|v| + 2..] == t;
    assert t <= Key(v, t) ==> k[..|v| + 2 + |t|] == Key(v, t) by {
      assert |t| <= |Key(v, t)|;
    }
    assert Key(v, t) == v + ":" + (":" + t);
    NamesHaveNoColon(Of(ResourcePool));
    PrefixBeforeColon(t, v, ":" + t);
  }

  lemma PrefixBeforeColon(t: string, v: string, tail: string)
    requires ':' !in t
    ensures t <= v + ":" + tail <==> t <= v
  {
    var k := v + ":" + tail;
    assert k[|v|] == ':';
    assert forall i :: 0 <= i < |t| ==> t[i] != ':';
    assert t <= k ==> forall i :: 0 <= i < |t| ==> t[i] == k[i];
    assert |t| <= |v| ==> k[..|t|] == v[..|t|];
  }
}
