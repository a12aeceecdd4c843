/** The queue of update tasks between writer and searchers. Tasks hold segment objects, not copies, so an object may be
    renamed or absorbed before its task runs; the clauses here say why that does no harm. A queue is the tasks made and
    not yet run, followed by the one being collected. */
module TaskQueue {
  import opened Prelude
  import opened IndexModel
  import opened IndexInvariant
  import opened IndexSteps

  type Store = map<SegId, Seg>

  /** Some task from position p on erases the name. */
  ghost predicate RetiredFrom(q: seq<Task>, p: nat, x: SegId) {
    exists i :: p <= i < |q| && x in q[i].erased
  }

  /** Some task will publish the object. */
  ghost predicate Pending(q: seq<Task>, o: nat) {
    exists i :: 0 <= i < |q| && o in q[i].inserted
  }

  // -------------------------------------------------------------------- clauses

  /** Objects to publish exist and are sealed; one that has left the levels has its name erased by a later task. */
  ghost predicate PublishOk(heap: seq<Seg>, lv: set<nat>, last: nat, q: seq<Task>) {
    forall p, o {:trigger o in q[p].inserted} :: 0 <= p < |q| && o in q[p].inserted ==>
      o < |heap| && o != last && (o in lv || RetiredFrom(q, p + 1, heap[o].id))
  }

  /** No task erases the name under which it publishes an object. */
  ghost predicate NoClash(heap: seq<Seg>, q: seq<Task>) {
    forall p, o {:trigger o in q[p].inserted} :: 0 <= p < |q| && o in q[p].inserted && o < |heap| ==>
      heap[o].id !in q[p].erased
  }

  /** No task erases the name of a segment in the levels or of the open segment, and names to erase have been drawn. */
  ghost predicate EraseOk(heap: seq<Seg>, lv: set<nat>, last: nat, drawn: nat, q: seq<Task>) {
    && (forall p, x :: 0 <= p < |q| && x in q[p].erased ==> x < drawn)
    && (forall p, o :: 0 <= p < |q| && (o in lv || o == last) && o < |heap| ==> heap[o].id !in q[p].erased)
  }

  /** Every segment of the levels is in the store under its name or will be published. */
  ghost predicate Reaches(heap: seq<Seg>, lv: set<nat>, q: seq<Task>, store: Store) {
    forall o :: o in lv && o < |heap| ==> heap[o].id in store || Pending(q, o)
  }

  /** Every stored name is in use in the levels or will be erased. */
  ghost predicate Leaves(heap: seq<Seg>, lv: set<nat>, drawn: nat, q: seq<Task>, store: Store) {
    forall x :: x in store ==> x < drawn && (x in NamesIn(heap, lv) || RetiredFrom(q, 0, x))
  }

  // ------------------------------------------------------------------- queue facts

  ghost function Queue(c: Config): seq<Task> {
    c.outbox + [c.cur]
  }

  lemma {:induction false} RetiredGrows(q: seq<Task>, q': seq<Task>, p: nat, x: SegId)
    requires |q| <= |q'| && forall i, y :: 0 <= i < |q| && y in q[i].erased ==> y in q'[i].erased
    requires RetiredFrom(q, p, x)
    ensures RetiredFrom(q', p, x)
  {
  }

  lemma {:induction false} PendingGrows(q: seq<Task>, q': seq<Task>, o: nat)
    requires |q| <= |q'| && forall i, y :: 0 <= i < |q| && y in q[i].inserted ==> y in q'[i].inserted
    requires Pending(q, o)
    ensures Pending(q', o)
  {
  }

  /** An empty task at the end changes nothing. */
  lemma {:induction false} EmptyTask(heap: seq<Seg>, lv: set<nat>, last: nat, drawn: nat, q: seq<Task>, store: Store)
    requires PublishOk(heap, lv, last, q) && NoClash(heap, q) && EraseOk(heap, lv, last, drawn, q)
    requires Reaches(heap, lv, q, store) && Leaves(heap, lv, drawn, q, store)
    ensures PublishOk(heap, lv, last, q + [NO_TASK]) && NoClash(heap, q + [NO_TASK])
    ensures EraseOk(heap, lv, last, drawn, q + [NO_TASK])
    ensures Reaches(heap, lv, q + [NO_TASK], store) && Leaves(heap, lv, drawn, q + [NO_TASK], store)
  {
    var q' := q + [NO_TASK];
    forall p: nat, x | RetiredFrom(q, p, x) ensures RetiredFrom(q', p, x) {
      RetiredGrows(q, q', p, x);
    }
    forall o: nat | Pending(q, o) ensures Pending(q', o) {
      PendingGrows(q, q', o);
    }
  }

  // ------------------------------------------------------------------------ sealing

  ghost function WithLast(q: seq<Task>, t: Task): (r: seq<Task>)
    requires q != []
    ensures |r| == |q|
  {
    q[|q| - 1 := t]
  }

  lemma {:induction false} SealPublish(heap: seq<Seg>, lv: set<nat>, last: nat, drawn: nat, q: seq<Task>)
    requires q != [] && last < |heap| && PublishOk(heap, lv, last, q) && NoClash(heap, q) &&
      EraseOk(heap, lv, last, drawn, q)
    ensures
      var q' := WithLast(q, q[|q| - 1].(inserted := q[|q| - 1].inserted + [last]));
      var heap' := Opened(heap, drawn);
      PublishOk(heap', lv + {last}, |heap|, q') && NoClash(heap', q') &&
        EraseOk(heap', lv + {last}, |heap|, drawn + 1, q')
  {
    var q' := WithLast(q, q[|q| - 1].(inserted := q[|q| - 1].inserted + [last]));
    forall p: nat, x | RetiredFrom(q, p, x) ensures RetiredFrom(q', p, x) {
      RetiredGrows(q, q', p, x);
    }
  }

  lemma {:induction false} SealStore(heap: seq<Seg>, lv: set<nat>, last: nat, drawn: nat, q: seq<Task>, store: Store)
    requires q != [] && last < |heap| && (forall h :: h in lv ==> h < |heap|)
    requires Reaches(heap, lv, q, store) && Leaves(heap, lv, drawn, q, store)
    ensures
      var q' := WithLast(q, q[|q| - 1].(inserted := q[|q| - 1].inserted + [last]));
      var heap' := Opened(heap, drawn);
      Reaches(heap', lv + {last}, q', store) && Leaves(heap', lv + {last}, drawn + 1, q', store)
  {
    var q' := WithLast(q, q[|q| - 1].(inserted := q[|q| - 1].inserted + [last]));
    OpenedNames(heap, lv, last, drawn);
    assert last in q'[|q| - 1].inserted;
    forall p: nat, x | RetiredFrom(q, p, x) ensures RetiredFrom(q', p, x) {
      RetiredGrows(q, q', p, x);
    }
    forall o: nat | Pending(q, o) ensures Pending(q', o) {
      PendingGrows(q, q', o);
    }
  }

  // ------------------------------------------------------------------------ merging

  ghost function PairQueue(heap: seq<Seg>, l: nat, r: nat, q: seq<Task>): (q': seq<Task>)
    requires q != [] && l < |heap| && r < |heap|
  {
    var cur := q[|q| - 1];
    WithLast(q, Task(cur.erased + [heap[r].id, heap[l].id], cur.inserted + [l]))
  }

  lemma {:induction false} PairQueueGrows(heap: seq<Seg>, l: nat, r: nat, q: seq<Task>)
    requires q != [] && l < |heap| && r < |heap|
    ensures
      var q' := PairQueue(heap, l, r, q);
      && (forall p: nat, x :: RetiredFrom(q, p, x) ==> RetiredFrom(q', p, x))
      && (forall o: nat :: Pending(q, o) ==> Pending(q', o))
      && (forall p: nat :: p < |q| ==> RetiredFrom(q', p, heap[l].id) && RetiredFrom(q', p, heap[r].id))
      && Pending(q', l)
  {
    var q' := PairQueue(heap, l, r, q);
    var n := |q| - 1;
    assert heap[l].id in q'[n].erased && heap[r].id in q'[n].erased && l in q'[n].inserted;
    forall p: nat, x | RetiredFrom(q, p, x) ensures RetiredFrom(q', p, x) {
      RetiredGrows(q, q', p, x);
    }
    forall o: nat | Pending(q, o) ensures Pending(q', o) {
      PendingGrows(q, q', o);
    }
  }

  /** A merge renames the left object and retires the right one; neither was collected in this task before. */
  lemma {:induction false} PairPublish(heap: seq<Seg>, lv: set<nat>, last: nat, drawn: nat, l: nat, r: nat,
      q: seq<Task>)
    requires q != [] && l < |heap| && r < |heap| && l in lv && r in lv && l != r && last !in lv
    requires l !in q[|q| - 1].inserted && r !in q[|q| - 1].inserted
    requires PublishOk(heap, lv, last, q)
    ensures PublishOk(Absorbed(heap, l, r, drawn), lv - {r}, last, PairQueue(heap, l, r, q))
  {
    var heap', q' := Absorbed(heap, l, r, drawn), PairQueue(heap, l, r, q);
    PairQueueGrows(heap, l, r, q);
    forall p, o | 0 <= p < |q'| && o in q'[p].inserted
      ensures o < |heap'| && o != last && (o in lv - {r} || RetiredFrom(q', p + 1, heap'[o].id))
    {
      if o == l {
        assert o in lv - {r};
      } else {
        assert o in q[p].inserted;
        assert heap'[o].id == heap[o].id;
        if o == r {
          assert p < |q| - 1;
        }
      }
    }
  }

  lemma {:induction false} PairNoClash(heap: seq<Seg>, last: nat, lv: set<nat>, drawn: nat, l: nat, r: nat,
      q: seq<Task>)
    requires q != [] && l < |heap| && r < |heap| && Names(heap, drawn)
    requires l !in q[|q| - 1].inserted && r !in q[|q| - 1].inserted
    requires NoClash(heap, q) && EraseOk(heap, lv, last, drawn, q)
    ensures NoClash(Absorbed(heap, l, r, drawn), PairQueue(heap, l, r, q))
  {
    var heap', q' := Absorbed(heap, l, r, drawn), PairQueue(heap, l, r, q);
    forall p, o | 0 <= p < |q'| && o in q'[p].inserted && o < |heap'| ensures heap'[o].id !in q'[p].erased {
      if o != l {
        assert o in q[p].inserted;
      }
    }
  }

  lemma {:induction false} PairEraseOk(heap: seq<Seg>, lv: set<nat>, last: nat, drawn: nat, l: nat, r: nat,
      q: seq<Task>)
    requires q != [] && l < |heap| && r < |heap| && l in lv && r in lv && l != r && last !in lv && Names(heap, drawn)
    requires EraseOk(heap, lv, last, drawn, q)
    ensures EraseOk(Absorbed(heap, l, r, drawn), lv - {r}, last, drawn + 1, PairQueue(heap, l, r, q))
  {
    var heap', q' := Absorbed(heap, l, r, drawn), PairQueue(heap, l, r, q);
    forall p, o | 0 <= p < |q'| && (o in lv - {r} || o == last) && o < |heap'| ensures heap'[o].id !in q'[p].erased {
      assert heap[o].id !in q[p].erased;
    }
  }

  lemma {:induction false} PairStore(heap: seq<Seg>, lv: set<nat>, drawn: nat, l: nat, r: nat, q: seq<Task>,
      store: Store)
    requires q != [] && l < |heap| && r < |heap| && l in lv && r in lv && l != r && Names(heap, drawn)
    requires Reaches(heap, lv, q, store) && Leaves(heap, lv, drawn, q, store)
    ensures Reaches(Absorbed(heap, l, r, drawn), lv - {r}, PairQueue(heap, l, r, q), store)
    ensures Leaves(Absorbed(heap, l, r, drawn), lv - {r}, drawn + 1, PairQueue(heap, l, r, q), store)
  {
    PairQueueGrows(heap, l, r, q);
    AbsorbedNames(heap, lv, l, r, drawn);
  }

  // ------------------------------------------------------------------- running a task

  lemma {:induction false} PopQueue(heap: seq<Seg>, lv: set<nat>, last: nat, drawn: nat, q: seq<Task>)
    requires q != [] && PublishOk(heap, lv, last, q) && NoClash(heap, q) && EraseOk(heap, lv, last, drawn, q)
    ensures PublishOk(heap, lv, last, q[1..]) && NoClash(heap, q[1..]) && EraseOk(heap, lv, last, drawn, q[1..])
  {
    forall p: nat, x | RetiredFrom(q, p + 1, x) ensures RetiredFrom(q[1..], p, x) {
      var i :| p + 1 <= i < |q| && x in q[i].erased;
      assert q[1..][i - 1] == q[i];
    }
    forall p, o | 0 <= p < |q[1..]| && o in q[1..][p].inserted
      ensures o < |heap| && o != last && (o in lv || RetiredFrom(q[1..], p + 1, heap[o].id))
    {
      assert o in q[p + 1].inserted;
    }
  }

  /** The put loop of a task. */
  function PutObjects(store: Store, heap: seq<Seg>, hs: seq<nat>): Store
    requires forall h :: h in hs ==> h < |heap|
    decreases |hs|
  {
    if hs == [] then store
    else
      assert hs[0] in hs && forall h :: h in hs[1..] ==> h in hs;
      PutObjects(store[heap[hs[0]].id := heap[hs[0]]], heap, hs[1..])
  }

  lemma {:induction false} PutObjectsEffect(store: Store, heap: seq<Seg>, drawn: nat, hs: seq<nat>, x: SegId)
    requires Names(heap, drawn) && forall h :: h in hs ==> h < |heap|
    ensures x in PutObjects(store, heap, hs) <==> x in store || x in NamesOf(heap, hs)
    ensures forall h :: h in hs && heap[h].id == x ==> PutObjects(store, heap, hs)[x] == heap[h]
    ensures x in store && x !in NamesOf(heap, hs) ==> PutObjects(store, heap, hs)[x] == store[x]
    decreases |hs|
  {
    if hs != [] {
      assert hs[0] in hs && forall h :: h in hs[1..] ==> h in hs;
      assert NamesOf(heap, hs) == {heap[hs[0]].id} + NamesOf(heap, hs[1..]) by {
        assert hs == [hs[0]] + hs[1..];
      }
      PutObjectsEffect(store[heap[hs[0]].id := heap[hs[0]]], heap, drawn, hs[1..], x);
      forall h | h in hs && heap[h].id == x ensures PutObjects(store, heap, hs)[x] == heap[h] {
        if h !in hs[1..] {
          assert h == hs[0];
          forall g | g in hs[1..] ensures heap[g].id != x {
            assert g != h;
          }
          assert x !in NamesOf(heap, hs[1..]);
        }
      }
    }
  }

  /** The store after a task: its objects put under their current names, then its names deleted. */
  function StoreAfter(store: Store, heap: seq<Seg>, t: Task): Store
    requires forall h :: h in t.inserted ==> h < |heap|
  {
    PutObjects(store, heap, t.inserted) - NameSet(t.erased)
  }

  /** What a task publishes is in the store, as it is now, when the searchers come to fetch it. */
  lemma {:induction false} FetchFinds(store: Store, heap: seq<Seg>, lv: set<nat>, last: nat, drawn: nat, q: seq<Task>,
      h: nat)
    requires Names(heap, drawn) && q != [] && PublishOk(heap, lv, last, q) && NoClash(heap, q) && h in q[0].inserted
    ensures (forall g :: g in q[0].inserted ==> g < |heap|)
    ensures heap[h].id in StoreAfter(store, heap, q[0]) && StoreAfter(store, heap, q[0])[heap[h].id] == heap[h]
  {
    PutObjectsEffect(store, heap, drawn, q[0].inserted, heap[h].id);
    assert heap[h].id in NamesOf(heap, q[0].inserted);
  }

  lemma {:induction false} RunStore(heap: seq<Seg>, lv: set<nat>, last: nat, drawn: nat, q: seq<Task>, store: Store)
    requires Names(heap, drawn) && |q| >= 1 && (forall h :: h in lv ==> h < |heap|)
    requires PublishOk(heap, lv, last, q) && NoClash(heap, q) && EraseOk(heap, lv, last, drawn, q)
    requires Reaches(heap, lv, q, store) && Leaves(heap, lv, drawn, q, store)
    ensures (forall g :: g in q[0].inserted ==> g < |heap|)
    ensures Reaches(heap, lv, q[1..], StoreAfter(store, heap, q[0]))
    ensures Leaves(heap, lv, drawn, q[1..], StoreAfter(store, heap, q[0]))
  {
    assert forall g :: g in q[0].inserted ==> g < |heap|;
    var store' := StoreAfter(store, heap, q[0]);
    forall o | o in lv && o < |heap| ensures heap[o].id in store' || Pending(q[1..], o) {
      PutObjectsEffect(store, heap, drawn, q[0].inserted, heap[o].id);
      if heap[o].id !in store && o !in q[0].inserted {
        var i :| 0 <= i < |q| && o in q[i].inserted;
        assert o in q[1..][i - 1].inserted;
      } else if o in q[0].inserted {
        assert heap[o].id in NamesOf(heap, q[0].inserted);
      }
    }
    forall x | x in store' ensures x < drawn && (x in NamesIn(heap, lv) || RetiredFrom(q[1..], 0, x)) {
      PutObjectsEffect(store, heap, drawn, q[0].inserted, x);
      StoredLeaves(heap, lv, last, drawn, q, store, x);
    }
  }

  lemma {:induction false} StoredLeaves(heap: seq<Seg>, lv: set<nat>, last: nat, drawn: nat, q: seq<Task>,
      store: Store, x: SegId)
    requires Names(heap, drawn) && |q| >= 1 && PublishOk(heap, lv, last, q) && Leaves(heap, lv, drawn, q, store)
    requires x !in q[0].erased && (x in store || exists h :: h in q[0].inserted && h < |heap| && heap[h].id == x)
    ensures x < drawn && (x in NamesIn(heap, lv) || RetiredFrom(q[1..], 0, x))
  {
    if x !in NamesIn(heap, lv) {
      if x in store {
        var i :| 0 <= i < |q| && x in q[i].erased;
        assert x in q[1..][i - 1].erased;
      } else {
        var h :| h in q[0].inserted && h < |heap| && heap[h].id == x;
        assert h !in lv;
        var i :| 1 <= i < |q| && x in q[i].erased;
        assert x in q[1..][i - 1].erased;
      }
    }
  }
}
