/** The shared cache and a vCenter's view of it (vsphere/cache/vc_cache.go, app/cache/cache.go).
    Listings, worker pools and refresh tickers of all vCenters live in one store. */
module VCCache {
  import opened Wrappers

  /** What a query reports about an object of the inventory. */
  datatype Info = Info(id: string, name: string, datacenterID: string, clusterID: string, hostID: string,
    attributes: string)

  datatype Entry = Listing(infos: seq<Info>) | Pool | Ticker

  type Items = map<string, Entry>

  /** Whether caching is on, and the prefixes of keys that are never stored. */
  datatype Settings = Settings(enable: bool, ignorePrefixes: seq<string>)

  const REFRESH_TICKER := "RefreshTicker"

  function Key(vcid: string, t: string): string {
    vcid + "::" + t
  }

  predicate HasSuffix(k: string, s: string) {
    |s| <= |k| && k[|k| - |s|..] == s
  }

  predicate Ignored(s: Settings, k: string) {
    exists i :: 0 <= i < |s.ignorePrefixes| && s.ignorePrefixes[i] <= k
  }

  function Lookup(items: Items, s: Settings, vcid: string, k: string): Option<Entry> {
    if s.enable && Key(vcid, k) in items then Some(items[Key(vcid, k)]) else None
  }

  /** The first value stored under a key stays. */
  function PutIfAbsent(items: Items, s: Settings, vcid: string, k: string, v: Entry): Items {
    var ck := Key(vcid, k);
    if s.enable && !Ignored(s, ck) && ck !in items then items[ck := v] else items
  }

  predicate CleanedBy(vcid: string, k: string) {
    vcid <= k && !HasSuffix(k, REFRESH_TICKER)
  }

  function CleanedAll(items: Items, vcid: string): Items {
    map k | k in items && !CleanedBy(vcid, k) :: items[k]
  }

  function Cleaned(items: Items, vcid: string, keys: seq<string>): Items {
    if keys == [] then items else
    var n := |keys| - 1;
    Cleaned(items, vcid, keys[..n]) - {Key(vcid, keys[n])}
  }

  /** One entry of the configuration: the items of a vCenter not to cache, or none for the whole vCenter. */
  datatype IgnoreSetting = IgnoreSetting(vcid: string, items: seq<string>)

  /** A prefix is configured by an entry that names it, or by one that names only its vCenter. */
  predicate Configured(ignore: seq<IgnoreSetting>, prefix: string) {
    exists i :: 0 <= i < |ignore| && ConfiguredBy(ignore[i], prefix)
  }

  predicate ConfiguredBy(setting: IgnoreSetting, prefix: string) {
    if setting.items == [] then prefix == setting.vcid
    else exists j :: 0 <= j < |setting.items| && prefix == Key(setting.vcid, setting.items[j])
  }

  method Setup(ignore: seq<IgnoreSetting>) returns (prefixes: seq<string>)
    ensures forall p :: p in prefixes <==> Configured(ignore, p)
    ensures forall p :: p in prefixes <==>
      exists i :: 0 <= i < |ignore| &&
        if ignore[i].items == [] then p == ignore[i].vcid
        else exists j :: 0 <= j < |ignore[i].items| && p == ignore[i].vcid + "::" + ignore[i].items[j]
  {
    prefixes := [];
    for i := 0 to |ignore|
      invariant forall p :: p in prefixes <==> Configured(ignore[..i], p)
    {
      ghost var before := prefixes;
      var more := ItemPrefixes(ignore[i]);
      prefixes := prefixes + more;
      forall p
        ensures p in prefixes <==> Configured(ignore[..i + 1], p)
      {
        OneMoreSetting(ignore, i, p);
      }
    }
    assert ignore[..|ignore|] == ignore;
  }

  method ItemPrefixes(setting: IgnoreSetting) returns (prefixes: seq<string>)
    ensures forall p :: p in prefixes <==> ConfiguredBy(setting, p)
  {
    prefixes := [];
    if |setting.items| > 0 {
      for j := 0 to |setting.items|
        invariant forall p :: p in prefixes <==> exists k :: 0 <= k < j && p == Key(setting.vcid, setting.items[k])
      {
        prefixes := prefixes + [Key(setting.vcid, setting.items[j])];
      }
    } else {
      prefixes := prefixes + [setting.vcid];
    }
  }

  lemma OneMoreSetting(ignore: seq<IgnoreSetting>, i: nat, p: string)
    requires i < |ignore|
    ensures Configured(ignore[..i + 1], p) <==> Configured(ignore[..i], p) || ConfiguredBy(ignore[i], p)
  {
    var longer := ignore[..i + 1];
    if Configured(longer, p) {
      var k :| 0 <= k < |longer| && ConfiguredBy(longer[k], p);
      if k < i {
        assert ConfiguredBy(ignore[..i][k], p);
      }
    }
    if Configured(ignore[..i], p) {
      var k :| 0 <= k < |ignore[..i]| && ConfiguredBy(ignore[..i][k], p);
      assert ConfiguredBy(longer[k], p);
    }
    assert longer[i] == ignore[i];
  }

  class Store {
    var items: Items

    constructor ()
      ensures items == map[]
    {
      items := map[];
    }
  }

  class Cache {
    const vcid: string
    const store: Store
    const settings: Settings

    constructor (vcid: string, store: Store, settings: Settings)
      ensures this.vcid == vcid && this.store == store && this.settings == settings
    {
      this.vcid, this.store, this.settings := vcid, store, settings;
    }

    method Get(k: string) returns (v: Option<Entry>)
      ensures v == Lookup(store.items, settings, vcid, k)
      ensures v ==
        if settings.enable && vcid + "::" + k in store.items then Some(store.items[vcid + "::" + k]) else None
    {
      v := None;
      if settings.enable {
        var ck := Key(vcid, k);
        if ck in store.items {
          v := Some(store.items[ck]);
        }
      }
    }

    method Ignore(k: string) returns (b: bool)
      ensures b <==> Ignored(settings, k)
      ensures b <==> exists i :: 0 <= i < |settings.ignorePrefixes| && settings.ignorePrefixes[i] <= k
    {
      for i := 0 to |settings.ignorePrefixes|
        invariant forall j :: 0 <= j < i ==> !(settings.ignorePrefixes[j] <= k)
      {
        if settings.ignorePrefixes[i] <= k {
          return true;
        }
      }
      b := false;
    }

    method Set(k: string, v: Entry)
      modifies store
      ensures store.items == PutIfAbsent(old(store.items), settings, vcid, k, v)
      ensures
        var ck := vcid + "::" + k;
        if settings.enable && ck !in old(store.items)
           && !exists i :: 0 <= i < |settings.ignorePrefixes| && settings.ignorePrefixes[i] <= ck
        then store.items == old(store.items)[ck := v] else store.items == old(store.items)
    {
      if settings.enable {
        var ck := Key(vcid, k);
        var ignored := Ignore(ck);
        if !ignored {
          if ck !in store.items {
            store.items := store.items[ck := v];
          }
        }
      }
    }

    method CleanAll()
      modifies store
      ensures store.items == CleanedAll(old(store.items), vcid)
      ensures forall k :: k in store.items <==>
        k in old(store.items) && (!(vcid <= k) || (|k| >= 13 && k[|k| - 13..] == "RefreshTicker"))
      ensures forall k :: k in store.items ==> store.items[k] == old(store.items)[k]
    {
      var todo := store.items.Keys;
      while todo != {}
        invariant todo <= old(store.items).Keys
        invariant store.items == map k | k in old(store.items)
          && (k in todo || !CleanedBy(vcid, k)) :: old(store.items)[k]
      {
        var _ := SomeElement(todo);
        var k :| k in todo;
        if vcid <= k && !HasSuffix(k, REFRESH_TICKER) {
          store.items := store.items - {k};
        }
        todo := todo - {k};
      }
    }

    method Clean(keys: seq<string>)
      modifies store
      ensures store.items == Cleaned(old(store.items), vcid, keys)
      ensures forall k :: k in store.items <==>
        k in old(store.items) && !exists i :: 0 <= i < |keys| && k == vcid + "::" + keys[i]
      ensures forall k :: k in store.items ==> store.items[k] == old(store.items)[k]
    {
      CleanedIs(old(store.items), vcid, keys);

      for i := 0 to |keys|
        invariant store.items == Cleaned(old(store.items), vcid, keys[..i])
      {
        assert keys[..i + 1][..i] == keys[..i];
        store.items := store.items - {Key(vcid, keys[i])};
      }
      assert keys[..|keys|] == keys;
    }
  }

  /** Cleaning removes exactly the named keys of the vCenter. */
  lemma {:induction false} CleanedIs(items: Items, vcid: string, keys: seq<string>)
    ensures forall k :: k in Cleaned(items, vcid, keys) <==>
      k in items && !exists i :: 0 <= i < |keys| && k == vcid + "::" + keys[i]
    ensures forall k :: k in Cleaned(items, vcid, keys) ==> Cleaned(items, vcid, keys)[k] == items[k]
  {
    if keys != [] {
      CleanedIs(items, vcid, keys[..|keys| - 1]);
    }
  }

  // ----- Keys -----

  /** Two keys with colon-free kinds are equal only if vCenter and kind are. */
  lemma KeyInjective(v1: string, t1: string, v2: string, t2: string)
    requires ':' !in t1 && ':' !in t2
    requires Key(v1, t1) == Key(v2, t2)
    ensures v1 == v2 && t1 == t2
  {
    ColonAt(v1, t1, t2);
    ColonAt(v2, t2, t1);
    var k := Key(v1, t1);
    assert k[|k| - |t1|..] == t1 && k[|k| - |t2|..] == t2;
    assert k[..|k| - |t1| - 2] == v1 && k[..|k| - |t2| - 2] == v2;
  }

  /** A key's colon stands before its kind, so a colon-free suffix is no longer than the kind. */
  lemma ColonAt(v: string, t: string, tail: string)
    requires ':' !in tail
    ensures HasSuffix(Key(v, t), tail) ==> |tail| <= |t|
  {
    var k := Key(v, t);
    var c := |k| - |t| - 1;
    assert k[c] == ':';
    assert forall i :: 0 <= i < |tail| ==> tail[i] in tail;
    assert |tail| <= |k| && |tail| > |t| ==> k[|k| - |tail|..][|tail| - |t| - 1] == k[c];
  }

  /** Cleaning one vCenter takes an entry of another exactly when the entry is no refresh ticker's and the first ID
      is a prefix of the second, or the second with a beginning of what follows it in the key. */
  lemma CleanAllReach(items: Items, v1: string, v2: string, t: string)
    requires Key(v2, t) in items
    ensures Key(v2, t) !in CleanedAll(items, v1) <==>
            !HasSuffix(Key(v2, t), REFRESH_TICKER) && (v1 <= v2 || (v2 <= v1 && v1[|v2|..] <= "::" + t))
    ensures ':' !in v1 ==>
              (Key(v2, t) !in CleanedAll(items, v1) <==> !HasSuffix(Key(v2, t), REFRESH_TICKER) && v1 <= v2)
  {
    var k := Key(v2, t);
    var tail := "::" + t;
    assert k == v2 + tail;
    if |v1| <= |v2| {
      assert k[..|v1|] == v2[..|v1|];
    } else {
      assert k[..|v2|] == v2;
      assert |v1| <= |k| ==> k[..|v1|] == v2 + tail[..|v1| - |v2|];
      assert v2 <= v1 ==> v1 == v2 + v1[|v2|..];
      assert v1 <= k ==> v1[|v2|] == k[|v2|];
      assert k[|v2|] == ':' && v1[|v2|] in v1;
    }
  }

  /** Between IDs of one length, cleaning a vCenter touches no entry of another. */
  lemma CleanAllSparesOthers(items: Items, v1: string, v2: string, t: string)
    requires |v1| == |v2| && v1 != v2
    ensures Key(v2, t) in items <==> Key(v2, t) in CleanedAll(items, v1)
    ensures Key(v2, t) in items ==> CleanedAll(items, v1)[Key(v2, t)] == items[Key(v2, t)]
  {
    var k := Key(v2, t);
    assert k[..|v1|] == v2;
  }

  /** Cleaning vc1 takes the clusters of vc10 with it, and cleaning a vCenter that reports an empty ID takes
      everything of every vCenter but the refresh tickers. */
  lemma CleanAllOverreaches(items: Items, k: string)
    ensures Key("vc10", "ComputeResource") !in CleanedAll(map[Key("vc10", "ComputeResource") := Listing([])], "vc1")
    ensures k in CleanedAll(items, "") <==> k in items && HasSuffix(k, REFRESH_TICKER)
  {
    var c := Key("vc10", "ComputeResource");
    assert c[..3] == "vc1";
    assert c[|c| - 13..][12] == 'e';
    assert REFRESH_TICKER[12] == 'r';
  }

  /** Families of guest systems are stored under a key prefixed twice and looked up under one prefixed once, so
      storing them never makes a difference to looking them up. */
  lemma OSFamiliesAreNeverHit(items: Items, s: Settings, v: string, e: Entry)
    ensures Lookup(PutIfAbsent(items, s, v, Key(v, "OSFamily"), e), s, v, "OSFamily") == Lookup(items, s, v, "OSFamily")
  {
    assert |Key(v, Key(v, "OSFamily"))| > |Key(v, "OSFamily")|;
  }
}
