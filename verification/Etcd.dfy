/** `EtcdClient`: the registry kept as a flat keyspace and read back by prefix. */
module Etcd {
  import opened Prelude
  import opened Keyspace

  class EtcdClient {
    var store: Keys
    ghost var registry: Registry

    ghost predicate Valid()
      reads this
    {
      StandsFor(store, registry)
    }

    constructor ()
      ensures Valid() && registry == Registry({}, map[])
    {
      store, registry := map[], Registry({}, map[]);
    }

    method AddElement(path: string, value: string)
      modifies this`store
      ensures store == old(store)[path := value]
    {
      store := store[path := value];
    }

    method RemoveElement(path: string)
      modifies this`store
      ensures store == old(store) - {path}
    {
      store := store - {path};
    }

    method AddSearcherHost(index: string, shard: string, addr: string)
      requires Valid() && SlashFree(index) && SlashFree(shard)
      modifies this
      ensures Valid() && registry == Record(old(registry), AddHost(Host(index, shard, addr)))
      ensures store == old(store)[index + "/searchers/" + shard + "/hosts/" + addr := addr]
    {
      UpdateKeeps(store, registry, AddHost(Host(index, shard, addr)));
      registry := Record(registry, AddHost(Host(index, shard, addr)));
      AddElement(index + "/searchers/" + shard + "/hosts/" + addr, addr);
    }

    method RemoveSearcherHost(index: string, shard: string, addr: string)
      requires Valid() && SlashFree(index) && SlashFree(shard)
      modifies this
      ensures Valid() && registry == Record(old(registry), RemoveHost(Host(index, shard, addr)))
      ensures store == old(store) - {index + "/searchers/" + shard + "/hosts/" + addr}
    {
      UpdateKeeps(store, registry, RemoveHost(Host(index, shard, addr)));
      registry := Record(registry, RemoveHost(Host(index, shard, addr)));
      RemoveElement(index + "/searchers/" + shard + "/hosts/" + addr);
    }

    /** `show` is `std::to_string`. */
    method UpdateAverageResponseTime(index: string, shard: string, value: real, show: real -> string)
      requires Valid() && SlashFree(index) && SlashFree(shard)
      modifies this
      ensures Valid() && registry == Record(old(registry), UpdateTime(ShardName(index, shard), show(value)))
      ensures store == old(store)[index + "/searchers/" + shard + "/stats/average_response_time" := show(value)]
    {
      UpdateKeeps(store, registry, UpdateTime(ShardName(index, shard), show(value)));
      registry := Record(registry, UpdateTime(ShardName(index, shard), show(value)));
      AddElement(index + "/searchers/" + shard + "/stats/average_response_time", show(value));
    }

    /** The server's answer to a prefix listing: every matching key once. */
    method Ls(prefix: string) returns (keys: seq<string>)
      ensures Distinct(keys) && Elems(keys) == Under(store, prefix)
    {
      keys := [];
      var left := set k | k in store && prefix <= k;
      while left != {}
        invariant Distinct(keys) && Elems(keys) !! left && Elems(keys) + left == Under(store, prefix)
        decreases |left|
      {
        var k :| k in left;
        assert Elems(keys + [k]) == Elems(keys) + {k};
        keys, left := keys + [k], left - {k};
      }
    }

    method GetAllValues(path: string) returns (values: seq<string>, ghost keys: seq<string>)
      ensures Distinct(keys) && Elems(keys) == (set k | k in store && path <= k) && |values| == |keys|
      ensures forall i :: 0 <= i < |keys| ==> keys[i] in store && values[i] == store[keys[i]]
      ensures |values| == |set k | k in store && path <= k|
      ensures Elems(values) == set k | k in store && path <= k :: store[k]
    {
      var found := Ls(path);
      values, keys := [], found;
      assert forall i :: 0 <= i < |found| ==> found[i] in Elems(found);
      var i := 0;
      while i < |found|
        invariant 0 <= i <= |found| && |values| == i
        invariant forall j :: 0 <= j < i ==> values[j] == store[found[j]]
      {
        values := values + [store[found[i]]];
        i := i + 1;
      }
      DistinctCount(found);
      ValuesOf(store, found, values);
    }

    /** No answer when some key is too short for the nesting level. */
    method ListAllKeys(path: string, level: nat) returns (r: Option<set<string>>)
      ensures r.None? <==> exists k :: k in store && path <= k && |Split(k)| <= level
      ensures r.Some? ==> r.value == set k | k in store && path <= k :: Split(k)[level]
    {
      var found := Ls(path);
      assert forall i :: 0 <= i < |found| ==> found[i] in Elems(found);
      var names := {};
      var i := 0;
      while i < |found|
        invariant 0 <= i <= |found|
        invariant forall j :: 0 <= j < i ==> |Split(found[j])| > level
        invariant forall j :: 0 <= j < i ==> Split(found[j])[level] in names
        invariant forall x :: x in names ==> NamedBefore(found, i, level, x)
      {
        var parts := Split(found[i]);
        if level >= |parts| {
          return None;
        }
        names := names + {parts[level]};
        i := i + 1;
      }
      NamesDone(found, level, names, Under(store, path));
      r := Some(names);
    }

    method ListSearcherHosts(index: string, shard: Option<string>) returns (hosts: seq<string>)
      requires Valid() && SlashFree(index) && (shard.Some? ==> SlashFree(shard.value))
      ensures shard.Some? ==> Distinct(hosts) && Elems(hosts) == HostsOf(registry, ShardName(index, shard.value))
      ensures shard.None? ==> Elems(hosts) == AddressesAndTimes(registry, index)
      ensures
        var path := index + "/searchers" + if shard.Some? then "/" + shard.value + "/hosts" else "";
        Elems(hosts) == set k | k in store && path <= k :: store[k]
    {
      var key := index + "/searchers";
      if shard.Some? {
        key := key + "/" + shard.value + "/hosts";
      }
      assert key == index + "/searchers" + if shard.Some? then "/" + shard.value + "/hosts" else "";
      ghost var keys;
      hosts, keys := GetAllValues(key);
      if shard.Some? {
        ShardValues(store, registry, index, shard.value, keys, hosts);
      } else {
        IndexValues(store, registry, index, keys, hosts);
      }
    }

    method ListShardIds(index: string) returns (r: Option<set<string>>)
      requires Valid() && SlashFree(index)
      ensures r == Some(ShardsOf(registry, index))
      ensures forall k :: k in store && index + "/searchers" <= k ==> |Split(k)| > 2
      ensures r.value == set k | k in store && index + "/searchers" <= k :: Split(k)[2]
    {
      ShardNames(store, registry, index);
      assert forall k :: k in store && index + "/searchers" <= k ==> k in Under(store, HostsPrefix(index, None));
      r := ListAllKeys(index + "/searchers", 2);
      assert r.Some?;
      ghost var listed := set k | k in Under(store, HostsPrefix(index, None)) :: Split(k)[2];
      assert listed == ShardsOf(registry, index);
      assert r.value == listed;
    }

    /** `read` is `std::stod`. */
    method GetSearcherAverageResponseTime(index: string, shard: string, read: string -> real) returns (r: real)
      requires Valid() && SlashFree(index) && SlashFree(shard)
      ensures r ==
        if ShardName(index, shard) in registry.times then read(registry.times[ShardName(index, shard)]) else 0.0
      ensures
        var key := index + "/searchers/" + shard + "/stats/average_response_time";
        r == if key in store then read(store[key]) else 0.0
    {
      TimeListing(store, registry, ShardName(index, shard));
      ghost var key := index + "/searchers/" + shard + "/stats/average_response_time";
      assert key in store <==> key in Under(store, key);
      var values, keys := GetAllValues(index + "/searchers/" + shard + "/stats/average_response_time");
      DistinctCount(keys);
      if |values| == 0 {
        assert keys == [];
        r := 0.0;
      } else {
        assert keys[0] in Elems(keys);
        r := read(values[0]);
      }
    }
  }

  ghost predicate NamedBefore(found: seq<string>, i: nat, level: nat, x: string)
    requires i <= |found|
  {
    exists j :: 0 <= j < i && |Split(found[j])| > level && Split(found[j])[level] == x
  }

  lemma {:induction false} NamesDone(found: seq<string>, level: nat, names: set<string>, keys: set<string>)
    requires Elems(found) == keys
    requires forall j :: 0 <= j < |found| ==> |Split(found[j])| > level
    requires forall j :: 0 <= j < |found| ==> Split(found[j])[level] in names
    requires forall x :: x in names ==> NamedBefore(found, |found|, level, x)
    ensures forall k :: k in keys ==> |Split(k)| > level
    ensures names == set k | k in keys :: Split(k)[level]
  {
    forall k | k in keys ensures |Split(k)| > level && Split(k)[level] in names {
      assert k in Elems(found);
      var j :| 0 <= j < |found| && found[j] == k;
    }
    forall x | x in names ensures exists k :: k in keys && Split(k)[level] == x {
      var j :| 0 <= j < |found| && Split(found[j])[level] == x;
      assert found[j] in Elems(found);
    }
  }

  /** What the listing without a shard returns: the addresses of the index, and the recorded times among them. */
  ghost function AddressesAndTimes(r: Registry, index: string): set<string> {
    (set h | h in r.hosts && h.index == index :: h.addr) + (set p | p in r.times && p.index == index :: r.times[p])
  }

  /** Below one shard, different keys carry different addresses. */
  lemma {:induction false} ShardValues(ks: Keys, r: Registry, index: string, shard: string, keys: seq<string>,
      values: seq<string>)
    requires StandsFor(ks, r) && SlashFree(index) && SlashFree(shard)
    requires Distinct(keys) && Elems(keys) == Under(ks, HostsPrefix(index, Some(shard))) && |values| == |keys|
    requires forall i :: 0 <= i < |keys| ==> keys[i] in ks && values[i] == ks[keys[i]]
    ensures Distinct(values) && Elems(values) == HostsOf(r, ShardName(index, shard))
  {
    ShardListing(ks, r, index, shard);
    HostValues(ks, r, index, shard);
    assert forall i :: 0 <= i < |keys| ==> keys[i] in Elems(keys);
    forall i, j | 0 <= i < j < |values| ensures values[i] != values[j] {
      assert keys[i] in Elems(keys) && keys[j] in Elems(keys);
      var g :| g in r.hosts && g.index == index && g.shard == shard && HostKey(g) == keys[i];
      var h :| h in r.hosts && h.index == index && h.shard == shard && HostKey(h) == keys[j];
      assert g.addr == h.addr ==> g == h;
    }
    ValuesOf(ks, keys, values);
  }

  lemma {:induction false} IndexValues(ks: Keys, r: Registry, index: string, keys: seq<string>, values: seq<string>)
    requires StandsFor(ks, r) && SlashFree(index)
    requires Elems(keys) == Under(ks, HostsPrefix(index, None)) && |values| == |keys|
    requires forall i :: 0 <= i < |keys| ==> keys[i] in ks && values[i] == ks[keys[i]]
    ensures Elems(values) == AddressesAndTimes(r, index)
  {
    IndexListing(ks, r, index);
    ValuesOf(ks, keys, values);
    forall x | x in AddressesAndTimes(r, index) ensures x in Elems(values) {
      if h :| h in r.hosts && h.index == index && h.addr == x {
        assert HostKey(h) in Elems(keys);
      } else {
        var p :| p in r.times && p.index == index && r.times[p] == x;
        assert TimeKey(p) in Elems(keys);
      }
    }
    forall x | x in Elems(values) ensures x in AddressesAndTimes(r, index) {
      var k :| k in Elems(keys) && ks[k] == x;
      if h :| h in r.hosts && h.index == index && HostKey(h) == k {
      } else {
        var p :| p in r.times && p.index == index && TimeKey(p) == k;
      }
    }
  }

  lemma {:induction false} ValuesOf(ks: Keys, keys: seq<string>, values: seq<string>)
    requires |values| == |keys|
    requires forall i :: 0 <= i < |keys| ==> keys[i] in ks && values[i] == ks[keys[i]]
    ensures forall k :: k in Elems(keys) ==> k in ks
    ensures Elems(values) == set k | k in Elems(keys) :: ks[k]
  {
    forall x | x in Elems(values) ensures exists k :: k in Elems(keys) && k in ks && ks[k] == x {
      var i :| 0 <= i < |values| && values[i] == x;
      assert keys[i] in Elems(keys);
    }
    forall k | k in Elems(keys) ensures k in ks && ks[k] in Elems(values) {
      var i :| 0 <= i < |keys| && keys[i] == k;
      assert values[i] in Elems(values);
    }
  }
}
