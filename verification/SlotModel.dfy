/** The bookkeeping of one FAISS-backed index as a value: internal slots, the two id maps and the tombstones. */
module SlotModel {
  import opened Prelude

  datatype Slots = Slots(
    vectors: seq<Vector>,
    nextId: nat,
    ids: map<DocId, nat>,
    inv: map<nat, DocId>,
    erased: set<nat>)

  const EMPTY := Slots([], 0, map[], map[], {})

  ghost predicate WellFormed(v: Slots) {
    && |v.vectors| == v.nextId
    && (forall i: nat :: i in v.inv <==> i < v.nextId)
    && (forall i: nat :: i in v.inv ==> v.inv[i] in v.ids)
    && (forall x :: x in v.ids ==> v.ids[x] in v.inv && v.inv[v.ids[x]] == x)
    && v.erased <= v.inv.Keys
  }

  /** The id maps are mutual inverses: no two slots carry the same document id. */
  ghost predicate Unique(v: Slots) {
    forall i: nat :: i in v.inv ==> v.inv[i] in v.ids && v.ids[v.inv[i]] == i
  }

  ghost function LiveSlots(v: Slots): set<nat> {
    v.inv.Keys - v.erased
  }

  /** Every live slot is the one its document id leads to. */
  ghost predicate LiveMapped(v: Slots) {
    forall i :: i in LiveSlots(v) ==> v.inv[i] in v.ids && v.ids[v.inv[i]] == i
  }

  ghost function Live(v: Slots): Docs
    requires WellFormed(v)
  {
    map x | x in v.ids && v.ids[x] !in v.erased :: v.vectors[v.ids[x]]
  }

  /** `size_t size()`; an `int` here, which goes negative where the machine word would wrap. */
  function Size(v: Slots): int {
    |v.ids| - |v.erased|
  }

  function AddOne(v: Slots, d: Doc): Slots {
    Slots(v.vectors + [d.vec], v.nextId + 1, v.ids[d.id := v.nextId], v.inv[v.nextId := d.id], v.erased)
  }

  function AddBatch(v: Slots, docs: seq<Doc>): Slots
    decreases |docs|
  {
    if docs == [] then v else AddBatch(AddOne(v, docs[0]), docs[1..])
  }

  function EraseOne(v: Slots, x: DocId): Slots {
    if x in v.ids then v.(erased := v.erased + {v.ids[x]}) else v
  }

  function EraseBatch(v: Slots, xs: seq<DocId>): Slots
    decreases |xs|
  {
    if xs == [] then v else EraseBatch(EraseOne(v, xs[0]), xs[1..])
  }

  /** `order` walks `LiveSlots(v)` in some hash order. */
  ghost predicate Walks(order: seq<nat>, v: Slots) {
    Distinct(order) && Elems(order) == LiveSlots(v)
  }

  function DocsAt(v: Slots, order: seq<nat>): (docs: seq<Doc>)
    requires InSlots(order, v)
    ensures |docs| == |order|
    ensures forall j :: 0 <= j < |docs| ==> docs[j] == Doc(v.inv[order[j]], v.vectors[order[j]])
  {
    seq(|order|, j requires 0 <= j < |order| => Doc(v.inv[order[j]], v.vectors[order[j]]))
  }

  /** Re-adds the live vectors of `other`, walked in `order`. */
  ghost function MergeFrom(v: Slots, other: Slots, order: seq<nat>): Slots
    requires WellFormed(other) && Walks(order, other)
  {
    assert forall i :: i in order ==> i in Elems(order);
    AddBatch(v, DocsAt(other, order))
  }

  // ---------------------------------------------------------------- counting

  lemma {:induction false} InjectiveImage(ks: set<DocId>, m: map<DocId, nat>)
    requires ks <= m.Keys
    requires forall x, y :: x in ks && y in ks && m[x] == m[y] ==> x == y
    ensures |set x | x in ks :: m[x]| == |ks|
  {
    if ks != {} {
      var x :| x in ks;
      var rest := ks - {x};
      InjectiveImage(rest, m);
      assert (set y | y in ks :: m[y]) == (set y | y in rest :: m[y]) + {m[x]};
    }
  }

  lemma {:induction false} Range(s: set<nat>, n: nat)
    requires forall i: nat :: i in s <==> i < n
    ensures |s| == n
  {
    if n == 0 {
      assert s == {};
    } else {
      Range(s - {n - 1}, n - 1);
      assert s == (s - {n - 1}) + {n - 1};
    }
  }

  /** One slot per id, counted: the maps are mutual inverses exactly when they are as long as each other. */
  lemma {:induction false} UniqueByCount(v: Slots)
    requires WellFormed(v)
    ensures |v.inv.Keys| == v.nextId
    ensures |v.ids| <= v.nextId
    ensures Unique(v) <==> |v.ids| == v.nextId
  {
    Range(v.inv.Keys, v.nextId);
    InjectiveImage(v.ids.Keys, v.ids);
    var image := set x | x in v.ids.Keys :: v.ids[x];
    assert image <= v.inv.Keys;
    SubsetCount(image, v.inv.Keys);
    if Unique(v) {
      forall i | i in v.inv.Keys ensures i in image {
        assert v.ids[v.inv[i]] == i;
      }
      assert image == v.inv.Keys;
    }
    if |v.ids| == v.nextId {
      forall i: nat | i in v.inv ensures v.inv[i] in v.ids && v.ids[v.inv[i]] == i {
        assert i in image;
      }
    }
  }

  /** `size()` is the number of live slots exactly when no id was ever given a second slot. */
  lemma {:induction false} SizeIsLiveCount(v: Slots)
    requires WellFormed(v)
    ensures |LiveSlots(v)| == v.nextId - |v.erased|
    ensures Size(v) <= |LiveSlots(v)|
    ensures Size(v) == |LiveSlots(v)| <==> Unique(v)
  {
    UniqueByCount(v);
    assert v.inv.Keys == LiveSlots(v) + v.erased;
  }

  lemma {:induction false} LiveByDoc(v: Slots)
    requires WellFormed(v) && LiveMapped(v)
    ensures |Live(v)| == |LiveSlots(v)|
    ensures forall i :: i in LiveSlots(v) ==> v.inv[i] in Live(v) && Live(v)[v.inv[i]] == v.vectors[i]
    ensures forall x :: x in Live(v) ==> v.ids[x] in LiveSlots(v)
  {
    var keys := Live(v).Keys;
    InjectiveImage(keys, v.ids);
    var image := set x | x in keys :: v.ids[x];
    forall i | i in LiveSlots(v) ensures i in image {
      assert v.ids[v.inv[i]] == i;
      assert v.inv[i] in keys;
    }
    assert image == LiveSlots(v);
    assert |Live(v)| == |keys|;
  }

  // ------------------------------------------------------------- preservation

  ghost function IdsOf(docs: seq<Doc>): set<DocId> {
    set d | d in docs :: d.id
  }

  /** The ids of a batch are distinct and not yet mapped: what a caller can check before the call. */
  ghost predicate Unmapped(v: Slots, docs: seq<Doc>) {
    && (forall i, j :: 0 <= i < j < |docs| ==> docs[i].id != docs[j].id)
    && (forall d :: d in docs ==> d.id !in v.ids)
  }

  ghost function AsMap(docs: seq<Doc>): Docs {
    if docs == [] then map[] else map[docs[0].id := docs[0].vec] + AsMap(docs[1..])
  }

  lemma {:induction false} AddOneWellFormed(v: Slots, d: Doc)
    requires WellFormed(v)
    ensures WellFormed(AddOne(v, d))
  {
  }

  lemma {:induction false} AddOneUnique(v: Slots, d: Doc)
    requires WellFormed(v)
    ensures Unique(AddOne(v, d)) <==> Unique(v) && d.id !in v.ids
    ensures Size(AddOne(v, d)) == Size(v) + (if d.id in v.ids then 0 else 1)
  {
    var v' := AddOne(v, d);
    AddOneWellFormed(v, d);
    UniqueByCount(v);
    UniqueByCount(v');
    assert v'.ids.Keys == v.ids.Keys + {d.id};
    assert |v'.ids| == |v'.ids.Keys| && |v.ids| == |v.ids.Keys|;
  }

  lemma {:induction false} AddOneLive(v: Slots, d: Doc)
    requires WellFormed(v)
    ensures WellFormed(AddOne(v, d))
    ensures Live(AddOne(v, d)) == Live(v)[d.id := d.vec]
  {
    AddOneWellFormed(v, d);
    var v' := AddOne(v, d);
    assert v.nextId !in v.erased;
    assert Live(v').Keys == Live(v).Keys + {d.id};
    forall x | x in Live(v) && x != d.id ensures Live(v')[x] == Live(v)[x] {
      assert v'.ids[x] == v.ids[x] < v.nextId;
    }
  }

  lemma {:induction false} AddBatchKeeps(v: Slots, docs: seq<Doc>)
    requires WellFormed(v)
    ensures WellFormed(AddBatch(v, docs))
    ensures Unique(AddBatch(v, docs)) <==> Unique(v) && Unmapped(v, docs)
    decreases |docs|
  {
    if docs != [] {
      AddOneWellFormed(v, docs[0]);
      AddOneUnique(v, docs[0]);
      AddBatchKeeps(AddOne(v, docs[0]), docs[1..]);
      UnmappedStep(v, docs);
    }
  }

  lemma {:induction false} AddBatchFields(v: Slots, docs: seq<Doc>)
    requires WellFormed(v)
    ensures AddBatch(v, docs).ids.Keys == v.ids.Keys + IdsOf(docs)
    ensures AddBatch(v, docs).nextId == v.nextId + |docs|
    ensures AddBatch(v, docs).erased == v.erased
    ensures v.vectors <= AddBatch(v, docs).vectors
    decreases |docs|
  {
    if docs != [] {
      AddOneWellFormed(v, docs[0]);
      AddBatchFields(AddOne(v, docs[0]), docs[1..]);
      IdsOfStep(docs);
    }
  }

  lemma {:induction false} IdsOfStep(docs: seq<Doc>)
    requires docs != []
    ensures IdsOf(docs) == {docs[0].id} + IdsOf(docs[1..])
  {
    assert docs == [docs[0]] + docs[1..];
  }

  /** The documents of a batch take the next slots one after another; earlier slots stay. */
  lemma {:induction false} AddBatchSlots(v: Slots, docs: seq<Doc>)
    requires WellFormed(v)
    ensures
      var v' := AddBatch(v, docs);
      && |v'.vectors| == v.nextId + |docs|
      && (forall i :: 0 <= i < v.nextId ==> i in v'.inv && v'.inv[i] == v.inv[i] && v'.vectors[i] == v.vectors[i])
      && (forall i :: v.nextId <= i < v.nextId + |docs| ==>
            i in v'.inv && v'.inv[i] == docs[i - v.nextId].id && v'.vectors[i] == docs[i - v.nextId].vec)
    decreases |docs|
  {
    if docs != [] {
      var v1 := AddOne(v, docs[0]);
      AddOneWellFormed(v, docs[0]);
      AddBatchSlots(v1, docs[1..]);
      var v' := AddBatch(v, docs);
      forall i | v.nextId <= i < v.nextId + |docs|
        ensures i in v'.inv && v'.inv[i] == docs[i - v.nextId].id && v'.vectors[i] == docs[i - v.nextId].vec
      {
        if i == v.nextId {
          assert v1.inv[i] == docs[0].id && v1.vectors[i] == docs[0].vec;
        } else {
          assert docs[1..][i - v1.nextId] == docs[i - v.nextId];
        }
      }
    }
  }

  lemma {:induction false} UnmappedStep(v: Slots, docs: seq<Doc>)
    requires docs != []
    ensures Unmapped(v, docs) <==> docs[0].id !in v.ids && Unmapped(AddOne(v, docs[0]), docs[1..])
  {
    var d, rest := docs[0], docs[1..];
    if Unmapped(v, docs) {
      assert d in docs;
      forall e | e in rest ensures e.id !in AddOne(v, d).ids {
        var j :| 0 <= j < |rest| && rest[j] == e;
        assert docs[j + 1] == e;
      }
    }
    if d.id !in v.ids && Unmapped(AddOne(v, d), rest) {
      forall i, j | 0 <= i < j < |docs| ensures docs[i].id != docs[j].id {
        assert docs[j] == rest[j - 1];
        assert docs[j] in rest;
        if i > 0 {
          assert docs[i] == rest[i - 1];
        }
      }
      forall e | e in docs ensures e.id !in v.ids {
        assert e == d || e in rest;
      }
    }
  }

  lemma {:induction false} AppendUpdate(live: Docs, docs: seq<Doc>)
    requires docs != []
    ensures live[docs[0].id := docs[0].vec] + AsMap(docs[1..]) == live + AsMap(docs)
  {
  }

  /** Adding new documents extends the live documents by exactly those documents. */
  lemma {:induction false} AddBatchLive(v: Slots, docs: seq<Doc>)
    requires WellFormed(v)
    ensures WellFormed(AddBatch(v, docs))
    ensures Live(AddBatch(v, docs)) == Live(v) + AsMap(docs)
    ensures Unmapped(v, docs) ==> Size(AddBatch(v, docs)) == Size(v) + |docs|
    decreases |docs|
  {
    AddBatchKeeps(v, docs);
    AddBatchFields(v, docs);
    if docs != [] {
      UnmappedStep(v, docs);
      AddOneLive(v, docs[0]);
      AddBatchLive(AddOne(v, docs[0]), docs[1..]);
      AppendUpdate(Live(v), docs);
    }
  }

  lemma {:induction false} EraseOneKeeps(v: Slots, x: DocId)
    requires WellFormed(v)
    ensures WellFormed(EraseOne(v, x))
    ensures Unique(EraseOne(v, x)) <==> Unique(v)
    ensures Live(EraseOne(v, x)) == Live(v) - {x}
  {
    var v' := EraseOne(v, x);
    if x in v.ids {
      forall y | y in v.ids && y != x ensures v.ids[y] in v'.erased <==> v.ids[y] in v.erased {
        assert v.inv[v.ids[y]] == y;
        assert v.inv[v.ids[x]] == x;
      }
    }
  }

  /** Erasing removes exactly the named documents; ids that are not mapped are skipped. */
  lemma {:induction false} EraseBatchKeeps(v: Slots, xs: seq<DocId>)
    requires WellFormed(v)
    ensures WellFormed(EraseBatch(v, xs))
    ensures Unique(EraseBatch(v, xs)) <==> Unique(v)
    ensures Live(EraseBatch(v, xs)) == Live(v) - Elems(xs)
    ensures EraseBatch(v, xs) == v.(erased := EraseBatch(v, xs).erased)
    decreases |xs|
  {
    if xs != [] {
      EraseOneKeeps(v, xs[0]);
      EraseBatchKeeps(EraseOne(v, xs[0]), xs[1..]);
      assert xs == [xs[0]] + xs[1..];
      assert Elems(xs) == {xs[0]} + Elems(xs[1..]);
    }
  }

  // -------------------------------------------------------------------- merge

  lemma {:induction false} AsMapEntries(docs: seq<Doc>)
    requires forall i, j :: 0 <= i < j < |docs| ==> docs[i].id != docs[j].id
    ensures AsMap(docs).Keys == IdsOf(docs)
    ensures forall d :: d in docs ==> d.id in AsMap(docs) && AsMap(docs)[d.id] == d.vec
    decreases |docs|
  {
    if docs != [] {
      var d, rest := docs[0], docs[1..];
      AsMapEntries(rest);
      assert docs == [d] + rest;
      forall e | e in docs ensures e.id in AsMap(docs) && AsMap(docs)[e.id] == e.vec {
        if e in rest {
          assert e.id in AsMap(rest);
        }
      }
      forall x | x in AsMap(docs).Keys ensures x in IdsOf(docs) {
        if x != d.id {
          assert x in IdsOf(rest);
        }
      }
    }
  }

  ghost predicate InSlots(order: seq<nat>, v: Slots) {
    forall i :: i in order ==> i in v.inv && i < |v.vectors|
  }

  lemma {:induction false} WalkedIdsDistinct(v: Slots, order: seq<nat>)
    requires WellFormed(v) && LiveMapped(v) && InSlots(order, v) && Walks(order, v)
    ensures forall i, j :: 0 <= i < j < |order| ==> DocsAt(v, order)[i].id != DocsAt(v, order)[j].id
  {
    forall i, j | 0 <= i < j < |order| ensures v.inv[order[i]] != v.inv[order[j]] {
      assert order[i] in Elems(order) && order[j] in Elems(order);
      assert v.ids[v.inv[order[i]]] == order[i];
      assert v.ids[v.inv[order[j]]] == order[j];
    }
  }

  lemma {:induction false} WalkedDoc(v: Slots, order: seq<nat>, x: DocId)
    requires WellFormed(v) && LiveMapped(v) && InSlots(order, v) && Walks(order, v)
    ensures x in Live(v) <==> x in IdsOf(DocsAt(v, order))
    ensures x in Live(v) ==> Doc(x, Live(v)[x]) in DocsAt(v, order)
  {
    var docs := DocsAt(v, order);
    LiveByDoc(v);
    if x in Live(v) {
      var s := v.ids[x];
      assert s in Elems(order);
      var j :| 0 <= j < |order| && order[j] == s;
      assert docs[j] == Doc(x, Live(v)[x]);
    }
    if x in IdsOf(docs) {
      var d :| d in docs && d.id == x;
      var j :| 0 <= j < |docs| && docs[j] == d;
      assert order[j] in Elems(order);
    }
  }

  lemma {:induction false} LiveDocsOf(v: Slots, order: seq<nat>)
    requires WellFormed(v) && LiveMapped(v) && InSlots(order, v) && Walks(order, v)
    ensures AsMap(DocsAt(v, order)) == Live(v)
  {
    WalkedIdsDistinct(v, order);
    forall x ensures x in IdsOf(DocsAt(v, order)) <==> x in Live(v) {
      WalkedDoc(v, order, x);
    }
    forall x | x in Live(v) ensures Doc(x, Live(v)[x]) in DocsAt(v, order) {
      WalkedDoc(v, order, x);
    }
    EntriesAre(DocsAt(v, order), Live(v));
  }

  lemma {:induction false} EntriesAre(docs: seq<Doc>, m: Docs)
    requires forall i, j :: 0 <= i < j < |docs| ==> docs[i].id != docs[j].id
    requires forall x :: x in IdsOf(docs) <==> x in m
    requires forall x :: x in m ==> Doc(x, m[x]) in docs
    ensures AsMap(docs) == m
  {
    AsMapEntries(docs);
  }

  /** Merging adds the live documents of the other index, whatever the walk; where both have an id the other's wins. */
  lemma {:induction false} MergeLive(v: Slots, other: Slots, order: seq<nat>)
    requires WellFormed(v) && WellFormed(other) && LiveMapped(other) && Walks(order, other)
    ensures WellFormed(MergeFrom(v, other, order))
    ensures Live(MergeFrom(v, other, order)) == Live(v) + Live(other)
    ensures MergeFrom(v, other, order).ids.Keys == v.ids.Keys + Live(other).Keys
  {
    assert forall i :: i in order ==> i in Elems(order);
    var docs := DocsAt(other, order);
    WalkedIdsDistinct(other, order);
    LiveDocsOf(other, order);
    AsMapEntries(docs);
    AddBatchLive(v, docs);
    AddBatchFields(v, docs);
  }

  /** Merging loses no live document, revives no erased one, and adds the sizes up, whatever the walk. */
  lemma {:induction false} MergeIsUnion(v: Slots, other: Slots, order: seq<nat>)
    requires WellFormed(v) && WellFormed(other) && Unique(v) && Unique(other) && Walks(order, other)
    requires v.ids.Keys !! Live(other).Keys
    ensures WellFormed(MergeFrom(v, other, order)) && Unique(MergeFrom(v, other, order))
    ensures Live(MergeFrom(v, other, order)) == Live(v) + Live(other)
    ensures MergeFrom(v, other, order).ids.Keys == v.ids.Keys + Live(other).Keys
    ensures Size(MergeFrom(v, other, order)) == Size(v) + Size(other)
  {
    MergeLive(v, other, order);
    WalkedUnmapped(v, other, order);
    AddBatchKeeps(v, DocsAt(other, order));
    AddBatchLive(v, DocsAt(other, order));
    SizeIsLiveCount(other);
    DistinctCount(order);
  }

  lemma {:induction false} WalkedUnmapped(v: Slots, other: Slots, order: seq<nat>)
    requires WellFormed(other) && Unique(other) && Walks(order, other) && v.ids.Keys !! Live(other).Keys
    ensures InSlots(order, other) && Unmapped(v, DocsAt(other, order))
  {
    assert forall i :: i in order ==> i in Elems(order);
    var docs := DocsAt(other, order);
    WalkedIdsDistinct(other, order);
    forall d | d in docs ensures d.id !in v.ids {
      WalkedDoc(other, order, d.id);
    }
  }

  // ---------------------------------------------------------- every call sequence

  /** How an index came to be: any tree of calls, each merge naming the index it drew from and the walk it took. */
  datatype History =
    | Created
    | Added(before: History, docs: seq<Doc>)
    | Erased(before: History, xs: seq<DocId>)
    | Merged(before: History, other: History, order: seq<nat>)

  ghost predicate Possible(h: History)
    decreases h, 0
  {
    match h
    case Created => true
    case Added(b, _) => Possible(b)
    case Erased(b, _) => Possible(b)
    case Merged(b, o, order) => Possible(b) && Possible(o) && Walks(order, Build(o))
  }

  ghost function Build(h: History): (v: Slots)
    requires Possible(h)
    ensures WellFormed(v)
    decreases h, 1
  {
    match h
    case Created => EMPTY
    case Added(b, docs) => AddBatchKeeps(Build(b), docs); AddBatch(Build(b), docs)
    case Erased(b, xs) => EraseBatchKeeps(Build(b), xs); EraseBatch(Build(b), xs)
    case Merged(b, o, order) =>
      assert forall i :: i in order ==> i in Elems(order);
      AddBatchKeeps(Build(b), DocsAt(Build(o), order));
      MergeFrom(Build(b), Build(o), order)
  }

  /** Every add, at the call and inside merges, brought only ids that were new to the index. */
  ghost predicate AddsAreNew(h: History)
    requires Possible(h)
  {
    match h
    case Created => true
    case Added(b, docs) => AddsAreNew(b) && Unmapped(Build(b), docs)
    case Erased(b, _) => AddsAreNew(b)
    case Merged(b, o, order) =>
      assert forall i :: i in order ==> i in Elems(order);
      AddsAreNew(b) && Unmapped(Build(b), DocsAt(Build(o), order))
  }

  /** For every call sequence: the maps stay well formed, and `size()` counts the live vectors
      exactly when every add brought only new ids. */
  lemma {:induction false} SizeExactOverEveryHistory(h: History)
    requires Possible(h)
    ensures WellFormed(Build(h))
    ensures Unique(Build(h)) <==> AddsAreNew(h)
    ensures Size(Build(h)) == |LiveSlots(Build(h))| <==> AddsAreNew(h)
  {
    SizeIsLiveCount(Build(h));
    match h
    case Created =>
    case Added(b, docs) =>
      SizeExactOverEveryHistory(b);
      AddBatchKeeps(Build(b), docs);
      AddBatchFields(Build(b), docs);
    case Erased(b, xs) =>
      SizeExactOverEveryHistory(b);
      EraseBatchKeeps(Build(b), xs);
    case Merged(b, o, order) =>
      SizeExactOverEveryHistory(b);
      assert forall i :: i in order ==> i in Elems(order);
      AddBatchKeeps(Build(b), DocsAt(Build(o), order));
      AddBatchFields(Build(b), DocsAt(Build(o), order));
  }

  /** Re-adding an erased id drives `size()` below zero and leaves the maps out of step. */
  lemma {:induction false} ReAddBreaksSize(x: DocId, a: Vector, b: Vector)
    ensures
      var h := Erased(Added(Erased(Added(Created, [Doc(x, a)]), [x]), [Doc(x, b)]), [x]);
      Possible(h) && Size(Build(h)) == -1 && LiveSlots(Build(h)) == {}
  {
    var v0 := AddOne(EMPTY, Doc(x, a));
    var v1 := EraseOne(v0, x);
    var v2 := AddOne(v1, Doc(x, b));
    var v3 := EraseOne(v2, x);
    SingletonBatch(EMPTY, Doc(x, a));
    SingletonBatch(v0, Doc(x, a));
    SingletonBatch(v1, Doc(x, b));
    SingletonBatch(v2, Doc(x, a));
    var h0 := Added(Created, [Doc(x, a)]);
    assert Possible(Created) && Build(Created) == EMPTY;
    assert Possible(h0) && Build(h0) == v0;
    var h1 := Erased(h0, [x]);
    assert Possible(h1) && Build(h1) == v1;
    var h2 := Added(h1, [Doc(x, b)]);
    assert Possible(h2) && Build(h2) == v2;
    assert v3.erased == {0, 1};
    assert v3.inv.Keys == {0, 1};
    assert v3.ids == map[x := 1];
  }

  lemma {:induction false} SingletonBatch(v: Slots, d: Doc)
    ensures AddBatch(v, [d]) == AddOne(v, d)
    ensures EraseBatch(v, [d.id]) == EraseOne(v, d.id)
  {
    assert AddBatch(v, [d]) == AddBatch(AddOne(v, d), []);
    assert EraseBatch(v, [d.id]) == EraseBatch(EraseOne(v, d.id), []);
  }
}
