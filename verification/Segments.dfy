/** `Segment`: a named object that owns one `FaissIndex`. */
module Segments {
  import opened Prelude
  import opened TopK
  import opened SlotModel
  import opened EraseReach
  import opened Faiss
  import opened Search
  import opened IndexModel

  lemma {:induction false} AddDocsTogether(s: Seg, docs: seq<Doc>)
    ensures AddDocs(s, docs) == s.(known := s.known + IdsOf(docs), live := s.live + AsMap(docs))
    decreases |docs|
  {
    if docs != [] {
      AddDocsTogether(AddDoc(s, docs[0]), docs[1..]);
      IdsOfStep(docs);
      AppendUpdate(s.live, docs);
    } else {
      assert s.live + AsMap(docs) == s.live;
      assert s.known + IdsOf(docs) == s.known;
    }
  }

  class Segment {
    const index: FaissIndex
    var segId: SegId

    ghost predicate Ok()
      reads this, index
    {
      WellFormed(index.Value()) && Unique(index.Value())
    }

    /** The documents behind the slots. */
    ghost function Val(): Seg
      requires Ok()
      reads this, index
    {
      Seg(segId, index.ids.Keys, Live(index.Value()))
    }

    constructor (id: SegId)
      ensures fresh(index) && Ok()
      ensures Val() == Seg(id, {}, map[])
    {
      index := new FaissIndex();
      segId := id;
      new;
      assert Live(EMPTY) == map[];
    }

    constructor Around(i: FaissIndex, id: SegId)
      ensures index == i && segId == id
    {
      index, segId := i, id;
    }

    /** With ids that are new to the segment this adds the documents; with any other the two id maps disagree from
        then on. */
    method AddVectorBatch(docs: seq<Doc>)
      modifies index
      ensures index.Value() == SlotModel.AddBatch(old(index.Value()), docs)
      ensures old(WellFormed(index.Value())) ==> (Ok() <==> old(Ok()) && Unmapped(old(index.Value()), docs))
      ensures old(Ok()) && Unmapped(old(index.Value()), docs) ==> Val() == AddDocs(old(Val()), docs)
    {
      ghost var v := index.Value();
      if WellFormed(v) {
        AddBatchKeeps(v, docs);
      }
      if Ok() && Unmapped(v, docs) {
        AddBatchFields(v, docs);
        AddBatchLive(v, docs);
        AddDocsTogether(Val(), docs);
      }
      index.AddBatch(docs);
    }

    /** Marks the slots the ids lead to. When every live slot is the one its id leads to, exactly the slots that bear
        the ids go. */
    method DeleteBatch(xs: seq<DocId>)
      modifies index
      ensures index.Value() == SlotModel.EraseBatch(old(index.Value()), xs)
      ensures old(WellFormed(index.Value())) ==>
        && WellFormed(index.Value()) && (Ok() <==> old(Ok())) && index.inv == old(index.inv)
        && (LiveMapped(index.Value()) <==> old(LiveMapped(index.Value())))
      ensures old(WellFormed(index.Value()) && LiveMapped(index.Value())) ==>
        forall i :: i in LiveSlots(index.Value()) <==> i in old(LiveSlots(index.Value())) && index.inv[i] !in Elems(xs)
      ensures old(Ok()) ==> Val() == EraseDocs(old(Val()), Elems(xs))
    {
      ghost var v := index.Value();
      if WellFormed(v) {
        EraseBatchKeeps(v, xs);
        EraseBatchReaches(v, xs);
      }
      index.EraseBatch(xs);
    }

    /** Takes the live slots of the other segment in some order; the union when no id was met here before. */
    method MergeSegment(other: Segment) returns (ghost order: seq<nat>)
      requires WellFormed(other.index.Value())
      modifies index
      ensures Walks(order, old(other.index.Value()))
      ensures index.Value() == MergeFrom(old(index.Value()), old(other.index.Value()), order)
      ensures old(Ok() && other.Ok() && Val().known !! other.Val().live.Keys) ==>
        Ok() && Val() == Absorb(old(Val()), old(other.Val()), segId)
    {
      ghost var v, o := index.Value(), other.index.Value();
      ghost var union := Ok() && other.Ok() && Val().known !! other.Val().live.Keys;
      order := index.MergeFromOther(other.index);
      if union {
        MergeIsUnion(v, o, order);
      }
    }

    /** The number of live slots exactly when no id was ever given a second slot. */
    method GetSize() returns (n: int)
      ensures n == Size(index.Value())
      ensures WellFormed(index.Value()) ==> (n == |LiveSlots(index.Value())| <==> Unique(index.Value()))
      ensures Ok() ==> n == Val().Size()
    {
      if WellFormed(index.Value()) {
        SizeIsLiveCount(index.Value());
      }
      if Ok() {
        LiveByDoc(index.Value());
      }
      n := index.GetSize();
    }

    /** `res` is the backend's answer to the request for k + |erased| slots. The answer tells for every id among the
        nearest live slots the distance of the farthest of them that bears it. When every live slot is the one its id
        leads to, these are k nearest live documents. */
    method SearchQuery(dist: Vector -> real, k: nat, res: seq<int>)
      returns (found: map<DocId, real>, ghost slots: seq<nat>)
      requires WellFormed(index.Value())
      requires BackendAnswer(res, index.vectors, dist, k + |index.erased|)
      ensures NearestLive(index.Value(), slots, dist, k)
      ensures FirstAnswered(index.Value(), res, slots, dist) && FarthestOf(found, index.Value(), slots, dist)
      ensures LiveMapped(index.Value()) ==> Nearest(HitSet(found), Live(index.Value()), dist, k)
    {
      var hits;
      hits, slots := index.SingleSearch(dist, k, res);
      found := ToMap(hits);
      HitsAreFarthest(found, index.Value(), slots, hits, dist);
      if LiveMapped(index.Value()) {
        FoundIsNearest(found, index.Value(), slots, hits, dist, k);
      }
    }
  }

  /** The map has the ids that the slots bear, each with the distance of the last slot that bears it. */
  ghost predicate FarthestOf(found: map<DocId, real>, v: Slots, slots: seq<nat>, dist: Vector -> real) {
    && (forall i :: 0 <= i < |slots| ==> slots[i] in v.inv && slots[i] < |v.vectors|)
    && (forall x :: x in found <==> exists i :: 0 <= i < |slots| && v.inv[slots[i]] == x)
    && (forall i :: 0 <= i < |slots| && LastOf(v.inv, slots, i) ==> found[v.inv[slots[i]]] == dist(v.vectors[slots[i]]))
  }

  lemma {:induction false} HitsAreFarthest(found: map<DocId, real>, v: Slots, slots: seq<nat>, hits: seq<Hit>,
      dist: Vector -> real)
    requires WellFormed(v) && HitsAt(hits, v, slots, dist) && LastHits(found, hits)
    ensures FarthestOf(found, v, slots, dist)
  {
    forall x ensures x in found <==> exists i :: 0 <= i < |slots| && v.inv[slots[i]] == x {
      if i :| 0 <= i < |hits| && hits[i].id == x {
        assert v.inv[slots[i]] == x;
      }
      if i :| 0 <= i < |slots| && v.inv[slots[i]] == x {
        assert hits[i].id == x;
      }
    }
    forall i | 0 <= i < |slots| && LastOf(v.inv, slots, i) ensures found[v.inv[slots[i]]] == dist(v.vectors[slots[i]]) {
      assert forall j :: i < j < |hits| ==> hits[j].id == v.inv[slots[j]];
      assert hits[i].id == v.inv[slots[i]];
    }
  }

  lemma {:induction false} FoundIsNearest(found: map<DocId, real>, v: Slots, slots: seq<nat>, hits: seq<Hit>,
      dist: Vector -> real, k: nat)
    requires WellFormed(v) && LiveMapped(v) && NearestLive(v, slots, dist, k) && HitsAt(hits, v, slots, dist)
    requires LastHits(found, hits)
    ensures Nearest(HitSet(found), Live(v), dist, k)
  {
    SlotsToDocs(v, slots, hits, dist, k);
    FoundIsHits(found, hits);
  }

  /** No later slot bears the same id. */
  ghost predicate LastOf(inv: map<nat, DocId>, slots: seq<nat>, i: nat)
    requires i < |slots|
  {
    slots[i] in inv && forall j :: i < j < |slots| ==> slots[j] in inv && inv[slots[j]] != inv[slots[i]]
  }

  /** The map has the ids of the hits, each with the distance of its last hit. */
  ghost predicate LastHits(found: map<DocId, real>, hits: seq<Hit>) {
    && (forall x :: x in found <==> exists i :: 0 <= i < |hits| && hits[i].id == x)
    && (forall i :: 0 <= i < |hits| && (forall j :: i < j < |hits| ==> hits[j].id != hits[i].id) ==>
          found[hits[i].id] == hits[i].dist)
  }

  /** The answer as a hash map from id to distance: the last hit of an id counts. */
  method ToMap(hits: seq<Hit>) returns (found: map<DocId, real>)
    ensures LastHits(found, hits)
  {
    found := map[];
    var n := 0;
    while n < |hits|
      invariant 0 <= n <= |hits|
      invariant forall x :: x in found <==> exists i :: 0 <= i < n && hits[i].id == x
      invariant forall i :: 0 <= i < n && (forall j :: i < j < n ==> hits[j].id != hits[i].id) ==>
        found[hits[i].id] == hits[i].dist
    {
      found := found[hits[n].id := hits[n].dist];
      n := n + 1;
    }
  }

  lemma {:induction false} FoundIsHits(found: map<DocId, real>, hits: seq<Hit>)
    requires LastHits(found, hits) && forall i, j :: 0 <= i < j < |hits| ==> hits[i].id != hits[j].id
    ensures HitSet(found) == Elems(hits)
  {
    forall h | h in HitSet(found) ensures h in Elems(hits) {
      var j :| 0 <= j < |hits| && hits[j].id == h.id;
      assert hits[j] == h;
    }
    forall h | h in Elems(hits) ensures h in HitSet(found) {
      var j :| 0 <= j < |hits| && hits[j] == h;
      assert hits[j].id in found;
    }
  }
}
