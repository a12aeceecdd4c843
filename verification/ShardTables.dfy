/** The table of shards per index, one update of it by a listing, and the histories of such updates. */
module ShardTables {
  import opened Prelude
  import opened Keyspace

  type Table<T> = map<string, map<string, T>>

  function At<T>(t: Table<T>, index: string): Option<map<string, T>> {
    if index in t then Some(t[index]) else None
  }

  /** An index has exactly the listed shards, none at all when none is listed, and keeps the objects it had. */
  ghost predicate Reconciled<T>(before: Option<map<string, T>>, after: Option<map<string, T>>, listed: set<string>) {
    if listed == {} then after.None? else
      && after.Some? && after.value.Keys == listed
      && forall s :: s in listed && before.Some? && s in before.value ==> after.value[s] == before.value[s]
  }

  /** Every configured index is reconciled, every other index is as it was. */
  ghost predicate AllReconciled<T>(before: Table<T>, after: Table<T>, configured: set<string>,
      listed: string -> set<string>) {
    && (forall i :: i in configured ==> Reconciled(At(before, i), At(after, i), listed(i)))
    && (forall i :: i !in configured ==> At(before, i) == At(after, i))
  }

  /** Reconciling again with the same listing changes nothing. */
  lemma {:induction false} AgainChangesNothing<T>(before: Table<T>, after: Table<T>, again: Table<T>,
      configured: set<string>, listed: string -> set<string>)
    requires AllReconciled(before, after, configured, listed) && AllReconciled(after, again, configured, listed)
    ensures again == after
  {
    forall i ensures At(again, i) == At(after, i) {
      if i in configured {
        assert Reconciled(At(before, i), At(after, i), listed(i)) && Reconciled(At(after, i), At(again, i), listed(i));
        if listed(i) != {} {
          assert At(again, i).value == At(after, i).value;
        }
      }
    }
    assert forall i :: (i in again <==> At(again, i).Some?) && (i in after <==> At(after, i).Some?);
  }

  ghost function Listing(r: Registry): string -> set<string> {
    i => ShardsOf(r, i)
  }

  /** A shard that came with the update. */
  ghost predicate IsNew<T>(before: Table<T>, after: Table<T>, index: string, shard: string) {
    index in after && shard in after[index] && !(index in before && shard in before[index])
  }

  // ------------------------------------------------------------------------ histories

  /** No shard of the table has the object. */
  ghost predicate Unseen<T>(t: Table<T>, o: T) {
    forall i, s :: i in t && s in t[i] ==> t[i][s] != o
  }

  /** The objects of new shards were in no earlier table. */
  ghost predicate NewUnseen<T>(earlier: seq<Table<T>>, before: Table<T>, after: Table<T>) {
    forall k, i, s :: 0 <= k < |earlier| && IsNew(before, after, i, s) ==> Unseen(earlier[k], after[i][s])
  }

  /** One update of a history: the table after it comes from the one before by the listing of a registry. */
  ghost predicate Updated<T>(ts: seq<Table<T>>, k: nat, configured: set<string>, r: Registry) {
    && k + 1 < |ts|
    && AllReconciled(ts[k], ts[k + 1], configured, Listing(r))
    && NewUnseen(ts[..k + 1], ts[k], ts[k + 1])
  }

  /** The tables before and after each of a sequence of updates, by registries that change in between. */
  ghost predicate History<T>(ts: seq<Table<T>>, configured: set<string>, rs: seq<Registry>) {
    |ts| == |rs| + 1 && forall k :: 0 <= k < |rs| ==> Updated(ts, k, configured, rs[k])
  }

  lemma {:induction false} OneMore<T>(ts: seq<Table<T>>, after: Table<T>, configured: set<string>, rs: seq<Registry>,
      r: Registry)
    requires History(ts, configured, rs)
    requires AllReconciled(ts[|rs|], after, configured, Listing(r)) && NewUnseen(ts, ts[|rs|], after)
    ensures History(ts + [after], configured, rs + [r])
  {
    var ts', rs' := ts + [after], rs + [r];
    forall k | 0 <= k < |rs'| ensures Updated(ts', k, configured, rs'[k]) {
      assert ts'[..k + 1] == ts[..k + 1];
      if k < |rs| {
        assert Updated(ts, k, configured, rs[k]);
      }
    }
  }

  ghost predicate HasShard<T>(t: Table<T>, i: string, s: string) {
    i in t && s in t[i]
  }

  /** After any update the shards of a configured index are exactly those the last registry lists. */
  lemma {:induction false} LastListingDecides<T>(ts: seq<Table<T>>, configured: set<string>, rs: seq<Registry>,
      k: nat, i: string, s: string)
    requires History(ts, configured, rs) && k < |rs| && i in configured
    ensures HasShard(ts[k + 1], i, s) <==> s in ShardsOf(rs[k], i)
    ensures i in ts[k + 1] <==> ShardsOf(rs[k], i) != {}
  {
    assert Updated(ts, k, configured, rs[k]);
    assert Reconciled(At(ts[k], i), At(ts[k + 1], i), Listing(rs[k])(i));
  }

  /** A shard that is there before and after an update keeps its object. */
  lemma {:induction false} UpdateKeepsObject<T>(ts: seq<Table<T>>, configured: set<string>, rs: seq<Registry>,
      k: nat, i: string, s: string)
    requires History(ts, configured, rs) && k < |rs| && HasShard(ts[k], i, s) && HasShard(ts[k + 1], i, s)
    ensures ts[k + 1][i][s] == ts[k][i][s]
  {
    assert Updated(ts, k, configured, rs[k]);
    if i in configured {
      LastListingDecides(ts, configured, rs, k, i, s);
      assert Reconciled(At(ts[k], i), At(ts[k + 1], i), Listing(rs[k])(i));
    } else {
      assert At(ts[k], i) == At(ts[k + 1], i);
    }
  }

  /** A shard that was gone in between has an object that no table before the gap had. */
  lemma {:induction false} ReturnsWithNewObject<T>(ts: seq<Table<T>>, configured: set<string>, rs: seq<Registry>,
      i: string, s: string, j: nat, m: nat, k: nat)
    requires History(ts, configured, rs) && j <= m < k <= |rs| && !HasShard(ts[m], i, s) && HasShard(ts[k], i, s)
    ensures Unseen(ts[j], ts[k][i][s])
    decreases k
  {
    assert Updated(ts, k - 1, configured, rs[k - 1]);
    if HasShard(ts[k - 1], i, s) {
      UpdateKeepsObject(ts, configured, rs, k - 1, i, s);
      ReturnsWithNewObject(ts, configured, rs, i, s, j, m, k - 1);
    } else {
      assert IsNew(ts[k - 1], ts[k], i, s);
      assert ts[..k][j] == ts[j];
    }
  }

  lemma {:induction false} ListedKeepsObject<T>(ts: seq<Table<T>>, configured: set<string>, rs: seq<Registry>,
      i: string, s: string, j: nat, k: nat)
    requires History(ts, configured, rs) && i in configured && j <= k <= |rs| && HasShard(ts[j], i, s)
    requires ListedThroughout(rs, i, s, j, k)
    ensures HasShard(ts[k], i, s) && ts[k][i][s] == ts[j][i][s]
    decreases k
  {
    if j < k {
      ListedKeepsObject(ts, configured, rs, i, s, j, k - 1);
      LastListingDecides(ts, configured, rs, k - 1, i, s);
      UpdateKeepsObject(ts, configured, rs, k - 1, i, s);
    }
  }

  lemma {:induction false} UnlistedLosesObject<T>(ts: seq<Table<T>>, configured: set<string>, rs: seq<Registry>,
      i: string, s: string, j: nat, m: nat, k: nat)
    requires History(ts, configured, rs) && i in configured && j <= m < k <= |rs| && HasShard(ts[j], i, s)
    requires s !in ShardsOf(rs[m], i) && HasShard(ts[k], i, s)
    ensures ts[k][i][s] != ts[j][i][s]
  {
    LastListingDecides(ts, configured, rs, m, i, s);
    ReturnsWithNewObject(ts, configured, rs, i, s, j, m + 1, k);
  }

  /** Every registry consulted between two moments listed the shard. */
  ghost predicate ListedThroughout(rs: seq<Registry>, i: string, s: string, j: nat, k: nat)
    requires k <= |rs|
  {
    forall m :: j <= m < k ==> s in ShardsOf(rs[m], i)
  }

  /** Over every history: a shard has the same object, with the documents in it, at two moments if and only if every
      registry consulted in between listed it. */
  lemma {:induction false} ObjectKeptIffListed<T>(ts: seq<Table<T>>, configured: set<string>, rs: seq<Registry>,
      i: string, s: string, j: nat, k: nat)
    requires History(ts, configured, rs) && i in configured && j <= k <= |rs| && HasShard(ts[j], i, s)
    ensures HasShard(ts[k], i, s) && ts[k][i][s] == ts[j][i][s] <==> ListedThroughout(rs, i, s, j, k)
  {
    if ListedThroughout(rs, i, s, j, k) {
      ListedKeepsObject(ts, configured, rs, i, s, j, k);
    } else {
      var m :| j <= m < k && s !in ShardsOf(rs[m], i);
      if HasShard(ts[k], i, s) {
        UnlistedLosesObject(ts, configured, rs, i, s, j, m, k);
      }
    }
  }
}
