/** When an erase reaches every vector of the id it names, over every sequence of calls on one index. */
module EraseReach {
  import opened Prelude
  import opened SlotModel

  /** Whatever id is erased next, no slot that stays live bears it. */
  ghost predicate EraseReaches(v: Slots) {
    forall x, i :: i in LiveSlots(EraseOne(v, x)) ==> v.inv[i] != x
  }

  /** The ids of a batch are distinct and none is live: what a caller can check before the call. */
  ghost predicate NotLive(v: Slots, docs: seq<Doc>)
    requires WellFormed(v)
  {
    && (forall i, j :: 0 <= i < j < |docs| ==> docs[i].id != docs[j].id)
    && (forall d :: d in docs ==> d.id !in Live(v))
  }

  lemma {:induction false} ReachesIffLiveMapped(v: Slots)
    requires WellFormed(v)
    ensures EraseReaches(v) <==> LiveMapped(v)
  {
    if EraseReaches(v) {
      forall i | i in LiveSlots(v) ensures v.inv[i] in v.ids && v.ids[v.inv[i]] == i {
        assert i !in LiveSlots(EraseOne(v, v.inv[i]));
      }
    }
  }

  // ---------------------------------------------------------------------- single calls

  lemma {:induction false} AddOneLiveMapped(v: Slots, d: Doc)
    requires WellFormed(v)
    ensures WellFormed(AddOne(v, d))
    ensures LiveMapped(AddOne(v, d)) <==> LiveMapped(v) && d.id !in Live(v)
  {
    AddOneWellFormed(v, d);
    var v' := AddOne(v, d);
    assert v.nextId !in v.erased;
    assert LiveSlots(v') == LiveSlots(v) + {v.nextId};
    if LiveMapped(v') {
      forall i | i in LiveSlots(v) ensures v.ids[v.inv[i]] == i {
        assert i in LiveSlots(v') && v'.ids[v'.inv[i]] == i;
      }
    }
    if d.id in Live(v) {
      assert v.ids[d.id] in LiveSlots(v') && v'.ids[d.id] == v.nextId;
    }
    if LiveMapped(v) && d.id !in Live(v) {
      forall i | i in LiveSlots(v) ensures v'.ids[v'.inv[i]] == i {
        assert v.inv[i] in Live(v);
      }
    }
  }

  lemma {:induction false} NotLiveStep(v: Slots, docs: seq<Doc>)
    requires WellFormed(v) && docs != []
    ensures WellFormed(AddOne(v, docs[0]))
    ensures NotLive(v, docs) <==> docs[0].id !in Live(v) && NotLive(AddOne(v, docs[0]), docs[1..])
  {
    var d, rest := docs[0], docs[1..];
    AddOneLive(v, d);
    if NotLive(v, docs) {
      assert d in docs;
      forall e | e in rest ensures e.id !in Live(AddOne(v, d)) {
        var j :| 0 <= j < |rest| && rest[j] == e;
        assert docs[j + 1] == e && e in docs;
      }
    }
    if d.id !in Live(v) && NotLive(AddOne(v, d), rest) {
      forall i, j | 0 <= i < j < |docs| ensures docs[i].id != docs[j].id {
        assert docs[j] == rest[j - 1] && rest[j - 1] in rest;
      }
      forall e | e in docs ensures e.id !in Live(v) {
        assert e == d || e in rest;
      }
    }
  }

  lemma {:induction false} AddBatchLiveMapped(v: Slots, docs: seq<Doc>)
    requires WellFormed(v)
    ensures WellFormed(AddBatch(v, docs))
    ensures LiveMapped(AddBatch(v, docs)) <==> LiveMapped(v) && NotLive(v, docs)
    decreases |docs|
  {
    AddBatchKeeps(v, docs);
    if docs != [] {
      AddOneLiveMapped(v, docs[0]);
      NotLiveStep(v, docs);
      AddBatchLiveMapped(AddOne(v, docs[0]), docs[1..]);
    }
  }

  /** An erase marks a slot its id leads to, so it neither spoils nor mends the others. */
  lemma {:induction false} EraseOneLiveMapped(v: Slots, x: DocId)
    requires WellFormed(v)
    ensures LiveMapped(EraseOne(v, x)) <==> LiveMapped(v)
  {
    var v' := EraseOne(v, x);
    if LiveMapped(v') {
      forall i | i in LiveSlots(v) ensures v.inv[i] in v.ids && v.ids[v.inv[i]] == i {
        if i !in LiveSlots(v') {
          assert i == v.ids[x];
        }
      }
    }
  }

  /** After an erase of many ids the live slots are those that were live and bear none of them. */
  lemma {:induction false} EraseBatchReaches(v: Slots, xs: seq<DocId>)
    requires WellFormed(v)
    ensures LiveMapped(EraseBatch(v, xs)) <==> LiveMapped(v)
    ensures EraseBatch(v, xs).inv == v.inv
    ensures LiveMapped(v) ==>
      forall i :: i in LiveSlots(EraseBatch(v, xs)) <==> i in LiveSlots(v) && v.inv[i] !in Elems(xs)
    decreases |xs|
  {
    if xs != [] {
      var v1 := EraseOne(v, xs[0]);
      EraseOneKeeps(v, xs[0]);
      EraseOneLiveMapped(v, xs[0]);
      ReachesIffLiveMapped(v);
      EraseBatchReaches(v1, xs[1..]);
      assert Elems(xs) == {xs[0]} + Elems(xs[1..]) by {
        assert xs == [xs[0]] + xs[1..];
      }
    }
  }

  // ---------------------------------------------------------------- every call sequence

  /** Every add, at the call and inside merges, brought distinct ids of which none was live at that moment. */
  ghost predicate AddsNotLive(h: History)
    requires Possible(h)
  {
    match h
    case Created => true
    case Added(b, docs) => AddsNotLive(b) && NotLive(Build(b), docs)
    case Erased(b, _) => AddsNotLive(b)
    case Merged(b, o, order) =>
      assert forall i :: i in order ==> i in Elems(order);
      AddsNotLive(b) && NotLive(Build(b), DocsAt(Build(o), order))
  }

  lemma {:induction false} LiveMappedIff(h: History)
    requires Possible(h)
    ensures LiveMapped(Build(h)) <==> AddsNotLive(h)
  {
    match h
    case Created =>
    case Added(b, docs) =>
      LiveMappedIff(b);
      AddBatchLiveMapped(Build(b), docs);
    case Erased(b, xs) =>
      LiveMappedIff(b);
      EraseBatchReaches(Build(b), xs);
    case Merged(b, o, order) =>
      LiveMappedIff(b);
      assert forall i :: i in order ==> i in Elems(order);
      AddBatchLiveMapped(Build(b), DocsAt(Build(o), order));
  }

  /** For every call sequence: whatever id is erased next, the erase reaches every vector of that id, exactly when
      every add brought only ids that were not live. */
  lemma {:induction false} EraseReachesOverEveryHistory(h: History)
    requires Possible(h)
    ensures (forall x :: forall i :: i in LiveSlots(EraseOne(Build(h), x)) ==> Build(h).inv[i] != x) <==> AddsNotLive(h)
  {
    ReachesIffLiveMapped(Build(h));
    LiveMappedIff(h);
  }

  /** New ids are not live, so the condition for `size()` is enough here. */
  lemma {:induction false} NewIsNotLive(h: History)
    requires Possible(h) && AddsAreNew(h)
    ensures AddsNotLive(h)
  {
    SizeExactOverEveryHistory(h);
    LiveMappedIff(h);
  }

  // ------------------------------------------------------------------------ two runs

  /** Adding an erased id again breaks `size()` and leaves every erase in reach of its vectors. */
  lemma {:induction false} ErasedMayReturn(x: DocId, a: Vector, b: Vector)
    ensures
      var h := Added(Erased(Added(Created, [Doc(x, a)]), [x]), [Doc(x, b)]);
      Possible(h) && AddsNotLive(h) && !AddsAreNew(h)
  {
    var h0 := Added(Created, [Doc(x, a)]);
    var h1 := Erased(h0, [x]);
    SingletonBatch(EMPTY, Doc(x, a));
    assert Possible(Created) && Build(Created) == EMPTY;
    assert Build(h0) == AddOne(EMPTY, Doc(x, a));
    SingletonBatch(Build(h0), Doc(x, a));
    assert Build(h1) == EraseOne(Build(h0), x);
    EraseOneKeeps(Build(h0), x);
    assert Live(EMPTY) == map[] && x !in Live(Build(h1));
    assert NotLive(EMPTY, [Doc(x, a)]) && NotLive(Build(h1), [Doc(x, b)]);
    assert AddsNotLive(h0) && AddsNotLive(h1);
    assert Doc(x, b) in [Doc(x, b)] && x in Build(h1).ids;
  }

  /** Adding a live id again leaves a vector that the next erase of the id does not reach. */
  lemma {:induction false} ReAddOutlivesErase(x: DocId, a: Vector, b: Vector)
    ensures
      var h := Added(Added(Created, [Doc(x, a)]), [Doc(x, b)]);
      Possible(h) && !AddsNotLive(h) && Build(h).inv == map[0 := x, 1 := x] && LiveSlots(Build(Erased(h, [x]))) == {0}
  {
    var h0 := Added(Created, [Doc(x, a)]);
    var h := Added(h0, [Doc(x, b)]);
    SingletonBatch(EMPTY, Doc(x, a));
    assert Possible(Created) && Build(Created) == EMPTY;
    assert Build(h0) == AddOne(EMPTY, Doc(x, a));
    SingletonBatch(Build(h0), Doc(x, b));
    var v := AddOne(Build(h0), Doc(x, b));
    assert Build(h) == v;
    SingletonBatch(v, Doc(x, a));
    assert EraseOne(v, x).inv.Keys == {0, 1} && EraseOne(v, x).erased == {1};
    LiveMappedIff(h);
    ReachesIffLiveMapped(v);
    assert 0 in LiveSlots(EraseOne(v, x));
  }
}
