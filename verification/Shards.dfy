/** The writer's shard objects, kept in step with the shards the registry lists. */
module Shards {
  import opened Prelude
  import opened Keyspace
  import opened Etcd
  import opened ShardTables
  import opened IndexRuns
  import IndexObject

  type Shard = IndexObject.Index

  /** The members of one set that another lacks, one by one. */
  method Lacking(have: set<string>, other: set<string>) returns (out: seq<string>)
    ensures Elems(out) == have - other
  {
    out := [];
    var left := have;
    while left != {}
      invariant left <= have && Elems(out) == have - left - other
      decreases |left|
    {
      var s :| s in left;
      if s !in other {
        assert Elems(out + [s]) == Elems(out) + {s};
        out := out + [s];
      }
      left := left - {s};
    }
  }

  datatype Settings = Settings(threshold: nat, merging: bool)

  class Writer {
    const configs: map<string, Settings>
    const etcd: EtcdClient
    var shards: Table<Shard>
    var buckets: set<string>
    ghost var past: seq<Table<Shard>>
    ghost var registries: seq<Registry>

    ghost predicate Valid()
      reads this, etcd
    {
      && etcd.Valid()
      && (forall i :: i in configs ==> SlashFree(i) && configs[i].threshold >= 1)
      && shards.Keys <= buckets
      && Unshared(shards)
    }

    /** The table now and the tables before each update so far are a history. */
    ghost predicate Recorded()
      reads this
    {
      History(past + [shards], configs.Keys, registries)
    }

    constructor (configs: map<string, Settings>, etcd: EtcdClient)
      requires etcd.Valid() && forall i :: i in configs ==> SlashFree(i) && configs[i].threshold >= 1
      ensures Valid() && Recorded() && shards == map[] && this.configs == configs && this.etcd == etcd
    {
      this.configs, this.etcd := configs, etcd;
      shards, buckets, past, registries := map[], {}, [], [];
    }

    method DropShards(index: string, gone: seq<string>)
      requires index in shards
      modifies this`shards
      ensures shards == old(shards)[index := old(shards)[index] - Elems(gone)]
    {
      ghost var before := shards;
      DropNone(before, index, gone);
      var n := 0;
      while n < |gone|
        invariant 0 <= n <= |gone|
        invariant shards == Without(before, index, gone[..n])
      {
        DropNext(before, index, gone, n);
        shards := shards[index := shards[index] - {gone[n]}];
        n := n + 1;
      }
      assert gone[..|gone|] == gone;
    }

    method OpenShard(index: string, shard: string, settings: Settings) returns (made: Shard)
      requires index in shards && settings.threshold >= 1
      modifies this`shards
      ensures fresh(made) && made.Valid() && Empty(made, settings)
      ensures shards == old(shards)[index := old(shards)[index][shard := made]]
    {
      made := new IndexObject.Index(settings.threshold, settings.merging);
      shards := shards[index := shards[index][shard := made]];
    }

    method OpenShards(index: string, missing: seq<string>, settings: Settings) returns (ghost made: set<Shard>)
      requires index in shards && settings.threshold >= 1
      modifies this`shards
      ensures EmptyAll(made, settings) && forall o :: o in made ==> fresh(o)
      ensures Grown(old(shards), shards, index, Elems(missing), made)
    {
      ghost var before := shards;
      made := {};
      var n := 0;
      while n < |missing|
        invariant 0 <= n <= |missing| && index in shards
        invariant EmptyAll(made, settings) && forall o :: o in made ==> fresh(o)
        invariant Grown(before, shards, index, Elems(missing[..n]), made)
      {
        made := OpenNext(index, missing, n, settings, before, made);
        n := n + 1;
      }
      assert missing[..|missing|] == missing;
    }

    method OpenNext(index: string, missing: seq<string>, n: nat, settings: Settings, ghost before: Table<Shard>,
        ghost made: set<Shard>)
      returns (ghost made': set<Shard>)
      requires n < |missing| && settings.threshold >= 1
      requires EmptyAll(made, settings) && Grown(before, shards, index, Elems(missing[..n]), made)
      modifies this`shards
      ensures EmptyAll(made', settings) && forall o :: o in made' ==> o in made || fresh(o)
      ensures Grown(before, shards, index, Elems(missing[..n + 1]), made')
    {
      ghost var now := shards;
      var o := OpenShard(index, missing[n], settings);
      GrowOne(before, now, index, missing, n, made, o);
      made' := made + {o};
    }

    /** One round of `updateIndexesState`. */
    method UpdateIndex(index: string) returns (ghost made: set<Shard>)
      requires Valid() && index in configs
      modifies this`shards, this`buckets
      ensures Valid()
      ensures EmptyAll(made, configs[index]) && forall o :: o in made ==> fresh(o)
      ensures Stepped(old(shards), shards, index, ShardsOf(etcd.registry, index), made)
      ensures buckets == old(buckets) +
        if ShardsOf(etcd.registry, index) != {} && index !in old(shards) then {index} else {}
    {
      made := {};
      var shardIds := etcd.ListShardIds(index);
      var listed := shardIds.value;
      if listed == {} {
        shards := shards - {index};
        return;
      }
      if index !in shards {
        buckets := buckets + {index};
        shards := shards[index := map[]];
      }
      made := Reshape(index, listed, shards, old(shards));
    }

    /** Drops the shards that are not listed and opens those that are missing. */
    method Reshape(index: string, listed: set<string>, ghost before: Table<Shard>, ghost start: Table<Shard>)
      returns (ghost made: set<Shard>)
      requires Valid() && index in configs && index in shards && listed != {} && before == shards
      requires before == if index in start then start else start[index := map[]]
      modifies this`shards
      ensures Valid()
      ensures EmptyAll(made, configs[index]) && forall o :: o in made ==> fresh(o)
      ensures Stepped(start, shards, index, listed, made)
    {
      var gone := Lacking(shards[index].Keys, listed);
      var missing := Lacking(listed, shards[index].Keys);
      DropShards(index, gone);
      ghost var kept := shards;
      made := OpenShards(index, missing, configs[index]);
      StepUnshared(before, kept, shards, index, Elems(gone), Elems(missing), made);
      StepDone(start, before, shards, index, listed, Elems(gone), Elems(missing), made);
    }

    method UpdateNext(index: string, ghost before: Table<Shard>, ghost done: set<string>,
        ghost made: map<Shard, string>)
      returns (ghost made': map<Shard, string>)
      requires Valid() && index in configs && index !in done
      requires AllReconciled(before, shards, done, Listing(etcd.registry)) && MadeFor(before, shards, made)
      requires AllEmpty(made)
      modifies this`shards, this`buckets
      ensures Valid()
      ensures buckets == old(buckets) + NewBuckets(before, {index}, Listing(etcd.registry))
      ensures AllReconciled(before, shards, done + {index}, Listing(etcd.registry)) && MadeFor(before, shards, made')
      ensures AllEmpty(made') && forall o :: o in made' ==> o in made || fresh(o)
    {
      assert At(before, index) == At(shards, index);
      ghost var now := shards;
      ghost var extra := UpdateIndex(index);
      OneBucket(before, now, index, Listing(etcd.registry));
      assert forall o :: o in made ==> Empty(o, configs[made[o]]);
      assert forall o :: o in extra ==> Empty(o, configs[index]);
      StepAll(before, now, shards, index, done, Listing(etcd.registry), made, extra);
      made' := made + Tagged(extra, index);
    }

    /** Each object is an empty index with the settings of the index it was made for. */
    ghost predicate AllEmpty(made: map<Shard, string>)
      reads made.Keys
    {
      forall o :: o in made ==> made[o] in configs && Empty(o, configs[made[o]])
    }

    /** The loop of `updateIndexesState`. */
    method UpdateAll() returns (ghost made: map<Shard, string>)
      requires Valid()
      modifies this`shards, this`buckets
      ensures Valid()
      ensures AllReconciled(old(shards), shards, configs.Keys, Listing(etcd.registry))
      ensures MadeFor(old(shards), shards, made)
      ensures AllEmpty(made) && forall o :: o in made ==> fresh(o)
      ensures buckets == old(buckets) + NewBuckets(old(shards), configs.Keys, Listing(etcd.registry))
    {
      ghost var before := shards;
      made := map[];
      var left := configs.Keys;
      while left != {}
        invariant Valid() && left <= configs.Keys
        invariant AllReconciled(before, shards, configs.Keys - left, Listing(etcd.registry))
        invariant MadeFor(before, shards, made)
        invariant AllEmpty(made) && forall o :: o in made ==> fresh(o)
        invariant buckets == old(buckets) + NewBuckets(before, configs.Keys - left, Listing(etcd.registry))
        decreases |left|
      {
        var index :| index in left;
        OneFewer(configs.Keys, left, index);
        made := UpdateNext(index, before, configs.Keys - left, made);
        BucketsJoin(before, configs.Keys - left, index, Listing(etcd.registry));
        left := left - {index};
      }
    }

    /** `updateIndexesState` */
    method UpdateIndexesState() returns (ghost made: map<Shard, string>)
      requires Valid() && Recorded()
      modifies this
      ensures Valid() && Recorded()
      ensures past == old(past) + [old(shards)] && registries == old(registries) + [etcd.registry]
      ensures AllReconciled(old(shards), shards, configs.Keys, Listing(etcd.registry))
      ensures MadeFor(old(shards), shards, made)
      ensures AllEmpty(made) && forall o :: o in made ==> fresh(o)
      ensures buckets == old(buckets) +
        set i | i in configs && i !in old(shards) && ShardsOf(etcd.registry, i) != {}
    {
      ghost var ts := past + [shards];
      made := UpdateAll();
      MadeIsUnseen(ts, ts[|past|], shards, made);
      OneMore(ts, shards, configs.Keys, registries, etcd.registry);
      past, registries := ts, registries + [etcd.registry];
    }
  }

  /** The indexes that get a bucket: listed with shards, and not in the table. */
  ghost function NewBuckets<T>(before: Table<T>, indexes: set<string>, listed: string -> set<string>): set<string> {
    set i | i in indexes && i !in before && listed(i) != {}
  }

  ghost function Without<T>(t: Table<T>, index: string, gone: seq<string>): Table<T>
    requires index in t
  {
    t[index := t[index] - Elems(gone)]
  }

  lemma {:induction false} DropNone<T>(t: Table<T>, index: string, gone: seq<string>)
    requires index in t
    ensures Without(t, index, gone[..0]) == t
  {
    assert t[index] - Elems(gone[..0]) == t[index];
  }

  lemma {:induction false} DropNext<T>(t: Table<T>, index: string, gone: seq<string>, n: nat)
    requires index in t && n < |gone|
    ensures var w := Without(t, index, gone[..n]); w[index := w[index] - {gone[n]}] == Without(t, index, gone[..n + 1])
  {
    assert Elems(gone[..n + 1]) == Elems(gone[..n]) + {gone[n]};
    assert t[index] - Elems(gone[..n]) - {gone[n]} == t[index] - Elems(gone[..n + 1]);
  }

  /** The index gained the given shards, each with its own object made for it; nothing else changed. */
  ghost predicate Grown(before: Table<Shard>, after: Table<Shard>, index: string, added: set<string>,
      made: set<Shard>) {
    && index in before && index in after && after == before[index := after[index]]
    && after[index].Keys == before[index].Keys + added
    && (forall s :: s in before[index] && s !in added ==> after[index][s] == before[index][s])
    && (forall s :: s in added ==> after[index][s] in made)
    && (forall s, t :: s in added && t in added && s != t ==> after[index][s] != after[index][t])
  }

  /** No two shards share an index object. */
  ghost predicate Unshared(shards: Table<Shard>) {
    forall i, s, j, t :: i in shards && s in shards[i] && j in shards && t in shards[j] && (i != j || s != t) ==>
      shards[i][s] != shards[j][t]
  }

  /** An index without documents, with the configured settings. */
  ghost predicate Empty(index: Shard, settings: Settings)
    reads index
  {
    index.world == EMPTY_WORLD && index.threshold == settings.threshold && index.merging == settings.merging
  }

  ghost predicate EmptyAll(made: set<Shard>, settings: Settings)
    reads made
  {
    forall o :: o in made ==> Empty(o, settings)
  }

  lemma {:induction false} GrowOne(before: Table<Shard>, now: Table<Shard>, index: string, missing: seq<string>,
      n: nat, made: set<Shard>, o: Shard)
    requires n < |missing| && o !in made && Grown(before, now, index, Elems(missing[..n]), made)
    ensures Grown(before, now[index := now[index][missing[n] := o]], index, Elems(missing[..n + 1]), made + {o})
  {
    assert Elems(missing[..n + 1]) == Elems(missing[..n]) + {missing[n]};
  }

  /** One index is reconciled, with objects made for its new shards; the other indexes are as they were. */
  ghost predicate Stepped(before: Table<Shard>, after: Table<Shard>, index: string, listed: set<string>,
      made: set<Shard>) {
    && Reconciled(At(before, index), At(after, index), listed)
    && (forall i :: i != index ==> At(before, i) == At(after, i))
    && (forall s :: index in after && s in after[index] && !(index in before && s in before[index]) ==>
      after[index][s] in made)
  }

  lemma {:induction false} StepUnshared(before: Table<Shard>, kept: Table<Shard>, after: Table<Shard>, index: string,
      gone: set<string>, added: set<string>, made: set<Shard>)
    requires Unshared(before) && index in before && kept == before[index := before[index] - gone]
    requires Grown(kept, after, index, added, made)
    requires forall i, s :: i in kept && s in kept[i] ==> kept[i][s] !in made
    ensures Unshared(after)
  {
  }

  lemma {:induction false} StepDone(start: Table<Shard>, before: Table<Shard>, after: Table<Shard>, index: string,
      listed: set<string>, gone: set<string>, added: set<string>, made: set<Shard>)
    requires before == if index in start then start else start[index := map[]]
    requires listed != {} && gone == before[index].Keys - listed && added == listed - before[index].Keys
    requires Grown(before[index := before[index] - gone], after, index, added, made)
    ensures Stepped(start, after, index, listed, made)
  {
  }

  lemma {:induction false} OneBucket<T>(before: Table<T>, now: Table<T>, index: string, listed: string -> set<string>)
    requires At(before, index) == At(now, index)
    ensures NewBuckets(before, {index}, listed) == if listed(index) != {} && index !in now then {index} else {}
  {
  }

  lemma {:induction false} BucketsJoin<T>(before: Table<T>, done: set<string>, index: string,
      listed: string -> set<string>)
    ensures NewBuckets(before, done + {index}, listed) ==
      NewBuckets(before, done, listed) + NewBuckets(before, {index}, listed)
  {
  }

  lemma {:induction false} OneFewer<T>(all: set<T>, left: set<T>, x: T)
    requires x in left && left <= all
    ensures all - left + {x} == all - (left - {x})
  {
  }

  /** Every shard that came with the update got an object made for its index. */
  ghost predicate MadeFor(before: Table<Shard>, after: Table<Shard>, made: map<Shard, string>) {
    forall i, s :: IsNew(before, after, i, s) ==> after[i][s] in made && made[after[i][s]] == i
  }

  lemma {:induction false} MadeIsUnseen(ts: seq<Table<Shard>>, before: Table<Shard>, after: Table<Shard>,
      made: map<Shard, string>)
    requires MadeFor(before, after, made)
    requires forall k, o :: 0 <= k < |ts| && o in made ==> Unseen(ts[k], o)
    ensures NewUnseen(ts, before, after)
  {
  }

  ghost function Tagged(objects: set<Shard>, index: string): map<Shard, string> {
    map o | o in objects :: index
  }

  lemma {:induction false} StepAll(before: Table<Shard>, now: Table<Shard>, after: Table<Shard>, index: string,
      done: set<string>, listed: string -> set<string>, made: map<Shard, string>, extra: set<Shard>)
    requires index !in done && AllReconciled(before, now, done, listed) &&
      Stepped(now, after, index, listed(index), extra)
    requires MadeFor(before, now, made) && extra !! made.Keys
    ensures AllReconciled(before, after, done + {index}, listed)
    ensures MadeFor(before, after, made + Tagged(extra, index))
  {
    assert At(before, index) == At(now, index);
    var made' := made + Tagged(extra, index);
    forall i, s | IsNew(before, after, i, s) ensures after[i][s] in made' && made'[after[i][s]] == i {
      if i != index {
        assert At(now, i) == At(after, i);
        assert IsNew(before, now, i, s);
      }
    }
  }
}
