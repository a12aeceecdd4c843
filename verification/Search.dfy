/** Search over many segments refines brute force over the plain map, whichever segments repeat or overlap. */
module Search {
  import opened Prelude
  import opened TopK
  import opened SlotModel
  import opened Faiss

  ghost function HitsOf(docs: Docs, dist: Vector -> real): set<Hit> {
    set x | x in docs :: Hit(dist(docs[x]), x)
  }

  /** `hits` are k nearest documents of `docs`: how ties at the edge fall is open. */
  ghost predicate Nearest(hits: set<Hit>, docs: Docs, dist: Vector -> real, k: nat) {
    && hits <= HitsOf(docs, dist)
    && |hits| == Min(k, |docs|)
    && forall h, x :: h in hits && x in docs && Hit(dist(docs[x]), x) !in hits ==> h.dist <= dist(docs[x])
  }

  /** Brute force: min(k, live) distinct ids, nearest first and by id at equal distance, no omitted document strictly
      closer than a returned one. */
  ghost predicate KNearest(ids: seq<DocId>, docs: Docs, dist: Vector -> real, k: nat) {
    && Distinct(ids)
    && |ids| == Min(k, |docs|)
    && (forall i :: 0 <= i < |ids| ==> ids[i] in docs)
    && (forall i, j :: 0 <= i < j < |ids| ==>
          Before(Hit(dist(docs[ids[i]]), ids[i]), Hit(dist(docs[ids[j]]), ids[j])))
    && (forall i, x :: 0 <= i < |ids| && x in docs && x !in ids ==> dist(docs[ids[i]]) <= dist(docs[x]))
  }

  lemma {:induction false} HitsCount(docs: Docs, dist: Vector -> real)
    ensures |HitsOf(docs, dist)| == |docs|
    decreases |docs|
  {
    if docs == map[] {
      assert HitsOf(docs, dist) == {};
    } else {
      var x :| x in docs;
      HitsCount(docs - {x}, dist);
      var rest := docs - {x};
      assert forall y :: y in docs && y != x ==> y in rest && rest[y] == docs[y];
      forall h | h in HitsOf(docs, dist) ensures h in HitsOf(rest, dist) + {Hit(dist(docs[x]), x)} {
        if h.id != x {
          assert h.id in rest;
        }
      }
      assert HitsOf(docs, dist) == HitsOf(rest, dist) + {Hit(dist(docs[x]), x)};
      assert docs.Keys == (docs - {x}).Keys + {x};
      assert |docs.Keys| == |docs| && |(docs - {x}).Keys| == |docs - {x}|;
    }
  }

  // ------------------------------------------------------------------- one segment

  lemma {:induction false} SlotHit(v: Slots, slots: seq<nat>, hits: seq<Hit>, dist: Vector -> real, x: DocId)
    requires WellFormed(v) && LiveMapped(v) && HitsAt(hits, v, slots, dist) && x in Live(v)
    requires forall i :: 0 <= i < |slots| ==> slots[i] in LiveSlots(v)
    ensures Hit(dist(Live(v)[x]), x) in Elems(hits) <==> v.ids[x] in slots
  {
    var hit := Hit(dist(Live(v)[x]), x);
    if v.ids[x] in slots {
      var i :| 0 <= i < |slots| && slots[i] == v.ids[x];
      assert hits[i] == hit;
    }
    if hit in Elems(hits) {
      var i :| 0 <= i < |hits| && hits[i] == hit;
      assert v.ids[v.inv[slots[i]]] == slots[i];
    }
  }

  lemma {:induction false} SlotHitsDistinct(v: Slots, slots: seq<nat>, hits: seq<Hit>, dist: Vector -> real)
    requires WellFormed(v) && LiveMapped(v) && HitsAt(hits, v, slots, dist) && Distinct(slots)
    requires forall i :: 0 <= i < |slots| ==> slots[i] in LiveSlots(v)
    ensures forall i, j :: 0 <= i < j < |hits| ==> hits[i].id != hits[j].id
  {
    forall i, j | 0 <= i < j < |hits| ensures hits[i].id != hits[j].id {
      assert v.ids[v.inv[slots[i]]] == slots[i];
      assert v.ids[v.inv[slots[j]]] == slots[j];
    }
  }

  /** The nearest live slots are the nearest live documents. */
  lemma {:induction false} SlotsToDocs(v: Slots, slots: seq<nat>, hits: seq<Hit>, dist: Vector -> real, k: nat)
    requires WellFormed(v) && LiveMapped(v) && NearestLive(v, slots, dist, k) && HitsAt(hits, v, slots, dist)
    ensures Nearest(Elems(hits), Live(v), dist, k)
    ensures forall i, j :: 0 <= i < j < |hits| ==> hits[i].id != hits[j].id
  {
    LiveByDoc(v);
    SlotHitsDistinct(v, slots, hits, dist);
    DistinctCount(hits);
    forall h | h in Elems(hits) ensures h in HitsOf(Live(v), dist) {
      var i :| 0 <= i < |hits| && hits[i] == h;
      assert slots[i] in LiveSlots(v);
    }
    forall h, x | h in Elems(hits) && x in Live(v) && Hit(dist(Live(v)[x]), x) !in Elems(hits)
      ensures h.dist <= dist(Live(v)[x])
    {
      SlotHit(v, slots, hits, dist, x);
      var i :| 0 <= i < |hits| && hits[i] == h;
      assert slots[i] in slots;
    }
  }

  // ------------------------------------------------------------------- many segments

  /** The segments' documents are all in `docs` and together make it up; they may overlap. */
  ghost predicate Covers(lives: seq<Docs>, docs: Docs) {
    && (forall i :: 0 <= i < |lives| ==> SubMap(lives[i], docs))
    && (forall x {:trigger HeldBySome(lives, x)} :: x in docs ==> HeldBySome(lives, x))
  }

  ghost predicate HeldBySome(lives: seq<Docs>, x: DocId) {
    exists i :: 0 <= i < |lives| && x in lives[i]
  }

  ghost predicate Answers(lives: seq<Docs>, answers: seq<set<Hit>>, dist: Vector -> real, k: nat) {
    && |answers| == |lives|
    && forall i :: 0 <= i < |lives| ==> Nearest(answers[i], lives[i], dist, k)
  }

  ghost predicate Union(all: set<Hit>, answers: seq<set<Hit>>) {
    && (forall i :: 0 <= i < |answers| ==> answers[i] <= all)
    && (forall h {:trigger FoundBySome(answers, h)} :: h in all ==> FoundBySome(answers, h))
  }

  ghost predicate FoundBySome(answers: seq<set<Hit>>, h: Hit) {
    exists i :: 0 <= i < |answers| && h in answers[i]
  }

  lemma {:induction false} UnionWithin(lives: seq<Docs>, answers: seq<set<Hit>>, docs: Docs, dist: Vector -> real,
      k: nat, all: set<Hit>)
    requires Covers(lives, docs) && Answers(lives, answers, dist, k) && Union(all, answers)
    ensures all <= HitsOf(docs, dist)
  {
    forall h | h in all ensures h in HitsOf(docs, dist) {
      assert FoundBySome(answers, h);
      var i :| 0 <= i < |answers| && h in answers[i];
      assert Nearest(answers[i], lives[i], dist, k);
      assert h in HitsOf(lives[i], dist);
    }
  }

  /** A segment that leaves a document out has returned k hits, none farther than it. */
  lemma {:induction false} LeftOut(live: Docs, hits: set<Hit>, dist: Vector -> real, k: nat, x: DocId)
    requires Nearest(hits, live, dist, k) && x in live && Hit(dist(live[x]), x) !in hits
    ensures |hits| == k && forall h :: h in hits ==> h.dist <= dist(live[x])
  {
    HitsCount(live, dist);
    SubsetCount(hits, HitsOf(live, dist));
    assert Hit(dist(live[x]), x) in HitsOf(live, dist);
  }

  lemma {:induction false} FewMeansAll(lives: seq<Docs>, answers: seq<set<Hit>>, docs: Docs, dist: Vector -> real,
      k: nat, all: set<Hit>)
    requires Covers(lives, docs) && Answers(lives, answers, dist, k) && Union(all, answers)
    ensures Min(k, |all|) == Min(k, |docs|)
  {
    UnionWithin(lives, answers, docs, dist, k, all);
    HitsCount(docs, dist);
    SubsetCount(all, HitsOf(docs, dist));
    if |all| < k {
      forall h | h in HitsOf(docs, dist) ensures h in all {
        assert HeldBySome(lives, h.id);
        var i :| 0 <= i < |lives| && h.id in lives[i];
        if h !in answers[i] {
          LeftOut(lives[i], answers[i], dist, k, h.id);
          SubsetCount(answers[i], all);
        }
      }
      assert all == HitsOf(docs, dist);
    }
  }

  /** An omitted document is no closer than anything kept: its segment alone has k hits at least as close. */
  lemma {:induction false} OmittedIsFarther(lives: seq<Docs>, answers: seq<set<Hit>>, docs: Docs,
      dist: Vector -> real, k: nat, all: set<Hit>,
                         kept: set<Hit>, h: Hit, x: DocId)
    requires Covers(lives, docs) && Answers(lives, answers, dist, k) && Union(all, answers) && KLeast(kept, all, k)
    requires h in kept && x in docs && Hit(dist(docs[x]), x) !in kept
    ensures h.dist <= dist(docs[x])
  {
    var hx := Hit(dist(docs[x]), x);
    if hx in all {
      assert hx in all - kept;
    } else {
      assert HeldBySome(lives, x);
      var i :| 0 <= i < |lives| && x in lives[i];
      assert SubMap(lives[i], docs);
      assert hx !in answers[i];
      LeftOut(lives[i], answers[i], dist, k, x);
      if h.dist > dist(docs[x]) {
        forall g | g in answers[i] ensures g in kept && g != h {
          assert g in all && !HitLess(h, g);
          assert g !in all - kept;
        }
        SubsetCount(answers[i] + {h}, kept);
        assert false;
      }
    }
  }

  /** The k best of all answers are k nearest of the whole: the bounded set refines brute force. */
  lemma {:induction false} KeptIsNearest(lives: seq<Docs>, answers: seq<set<Hit>>, docs: Docs, dist: Vector -> real,
      k: nat, all: set<Hit>, kept: set<Hit>)
    requires Covers(lives, docs) && Answers(lives, answers, dist, k) && Union(all, answers) && KLeast(kept, all, k)
    ensures Nearest(kept, docs, dist, k)
  {
    UnionWithin(lives, answers, docs, dist, k, all);
    FewMeansAll(lives, answers, docs, dist, k, all);
    forall h, x | h in kept && x in docs && Hit(dist(docs[x]), x) !in kept ensures h.dist <= dist(docs[x]) {
      OmittedIsFarther(lives, answers, docs, dist, k, all, kept, h, x);
    }
  }

  // ----------------------------------------------------------------------- methods

  ghost function HitSet(found: map<DocId, real>): set<Hit> {
    set x | x in found :: Hit(found[x], x)
  }

  /** Offers every entry of a segment's answer, in hash order, to the bounded set. */
  method OfferAll(kept: set<Hit>, found: map<DocId, real>, k: nat, ghost all: set<Hit>) returns (kept': set<Hit>)
    requires KLeast(kept, all, k)
    ensures KLeast(kept', all + HitSet(found), k)
  {
    kept' := kept;
    var left := found.Keys;
    SeenEnds(all, found);
    while left != {}
      invariant left <= found.Keys
      invariant KLeast(kept', Seen(all, found, left), k)
      decreases |left|
    {
      var x :| x in left;
      SeenNext(all, found, left, x);
      kept' := Offer(kept', Hit(found[x], x), k, Seen(all, found, left));
      left := left - {x};
    }
  }

  /** What was there before and what was offered so far. */
  ghost function Seen(all: set<Hit>, found: map<DocId, real>, left: set<DocId>): set<Hit> {
    all + set x | x in found.Keys - left :: Hit(found[x], x)
  }

  lemma {:induction false} SeenNext(all: set<Hit>, found: map<DocId, real>, left: set<DocId>, x: DocId)
    requires x in left && left <= found.Keys
    ensures Seen(all, found, left - {x}) == Seen(all, found, left) + {Hit(found[x], x)}
  {
    assert found.Keys - (left - {x}) == found.Keys - left + {x};
  }

  lemma {:induction false} SeenEnds(all: set<Hit>, found: map<DocId, real>)
    ensures Seen(all, found, found.Keys) == all && Seen(all, found, {}) == all + HitSet(found)
  {
    assert found.Keys - {} == found.Keys;
  }

  /** Reads the bounded set off in order. */
  method ReadOff(kept: set<Hit>, dist: Vector -> real, k: nat, ghost docs: Docs) returns (ids: seq<DocId>)
    requires Nearest(kept, docs, dist, k)
    ensures KNearest(ids, docs, dist, k)
    ensures kept == set x | x in ids && x in docs :: Hit(dist(docs[x]), x)
  {
    HitLeqPreorder();
    var sorted := Arrange(kept, HitLeq);
    ids := [];
    for i := 0 to |sorted|
      invariant |ids| == i
      invariant forall j :: 0 <= j < i ==> ids[j] == sorted[j].id
    {
      ids := ids + [sorted[i].id];
    }
    SortedIsNearest(sorted, ids, kept, docs, dist, k);
    ReadIsKept(sorted, ids, kept, docs, dist);
  }

  lemma {:induction false} ReadIsKept(sorted: seq<Hit>, ids: seq<DocId>, kept: set<Hit>, docs: Docs,
      dist: Vector -> real)
    requires kept <= HitsOf(docs, dist) && Elems(sorted) == kept
    requires |ids| == |sorted| && forall j :: 0 <= j < |ids| ==> ids[j] == sorted[j].id
    ensures kept == set x | x in ids && x in docs :: Hit(dist(docs[x]), x)
  {
    forall h | h in kept ensures h.id in ids && h.id in docs && h == Hit(dist(docs[h.id]), h.id) {
      var j :| 0 <= j < |sorted| && sorted[j] == h;
      assert ids[j] == h.id;
    }
    forall x | x in ids && x in docs ensures Hit(dist(docs[x]), x) in kept {
      var j :| 0 <= j < |ids| && ids[j] == x;
      assert sorted[j] in Elems(sorted);
    }
  }

  /** What some segment found and is not returned comes after everything returned. */
  ghost predicate Foremost(ids: seq<DocId>, found: seq<set<Hit>>, docs: Docs, dist: Vector -> real) {
    forall x, h {:trigger FoundBySome(found, h), x in ids} ::
      x in ids && x in docs && FoundBySome(found, h) && h.id !in ids ==>
      Before(Hit(dist(docs[x]), x), h)
  }

  lemma {:induction false} KeptIsForemost(ids: seq<DocId>, found: seq<set<Hit>>, docs: Docs, dist: Vector -> real,
      k: nat, all: set<Hit>, kept: set<Hit>)
    requires Union(all, found) && KLeast(kept, all, k)
    requires kept == set x | x in ids && x in docs :: Hit(dist(docs[x]), x)
    ensures Foremost(ids, found, docs, dist)
  {
    forall x, h | x in ids && x in docs && FoundBySome(found, h) && h.id !in ids
      ensures Before(Hit(dist(docs[x]), x), h)
    {
      var i :| 0 <= i < |found| && h in found[i];
      assert Hit(dist(docs[x]), x) in kept && h in all - kept;
      HitOrder(Hit(dist(docs[x]), x), h, h);
    }
  }

  lemma {:induction false} SortedHits(sorted: seq<Hit>, kept: set<Hit>, docs: Docs, dist: Vector -> real)
    requires kept <= HitsOf(docs, dist) && Elems(sorted) == kept && Distinct(sorted) && Sorted(HitLeq, sorted)
    ensures forall i :: 0 <= i < |sorted| ==>
      sorted[i].id in docs && sorted[i] == Hit(dist(docs[sorted[i].id]), sorted[i].id)
    ensures forall i, j :: 0 <= i < j < |sorted| ==> HitLess(sorted[i], sorted[j]) && sorted[i].id != sorted[j].id
  {
    forall i | 0 <= i < |sorted|
      ensures sorted[i].id in docs && sorted[i] == Hit(dist(docs[sorted[i].id]), sorted[i].id)
    {
      assert sorted[i] in kept;
    }
    forall i, j | 0 <= i < j < |sorted| ensures HitLess(sorted[i], sorted[j]) && sorted[i].id != sorted[j].id {
      assert HitLeq(sorted[i], sorted[j]) && sorted[i] != sorted[j];
    }
  }

  lemma {:induction false} SortedIsNearest(sorted: seq<Hit>, ids: seq<DocId>, kept: set<Hit>, docs: Docs,
      dist: Vector -> real, k: nat)
    requires Nearest(kept, docs, dist, k) && |sorted| == |kept|
    requires Elems(sorted) == kept && Distinct(sorted) && Sorted(HitLeq, sorted)
    requires |ids| == |sorted| && forall j :: 0 <= j < |ids| ==> ids[j] == sorted[j].id
    ensures KNearest(ids, docs, dist, k)
  {
    SortedHits(sorted, kept, docs, dist);
    forall i, j | 0 <= i < j < |ids|
      ensures Before(Hit(dist(docs[ids[i]]), ids[i]), Hit(dist(docs[ids[j]]), ids[j]))
    {
      HitOrder(sorted[i], sorted[j], sorted[j]);
    }
    forall i, x | 0 <= i < |ids| && x in docs && x !in ids ensures dist(docs[ids[i]]) <= dist(docs[x]) {
      assert sorted[i] in kept;
      forall j | 0 <= j < |sorted| ensures sorted[j] != Hit(dist(docs[x]), x) {
        assert ids[j] in ids;
      }
      assert Hit(dist(docs[x]), x) !in Elems(sorted);
    }
  }
}
