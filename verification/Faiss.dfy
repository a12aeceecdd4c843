/** `FaissIndex`: the index that owns the slots, and its search by over-fetching past the tombstones. */
module Faiss {
  import opened Prelude
  import opened SlotModel
  import opened TopK

  /** What an exact backend answers when asked for the m nearest vectors: distinct slots, none of the omitted
      ones strictly closer, ties broken in any way, padded with -1 when fewer than m are stored. */
  ghost predicate BackendAnswer(res: seq<int>, vectors: seq<Vector>, dist: Vector -> real, m: nat) {
    var c := Min(m, |vectors|);
    && |res| == m
    && (forall i :: 0 <= i < c ==> 0 <= res[i] < |vectors|)
    && (forall i, j :: 0 <= i < j < c ==> res[i] != res[j])
    && (forall i :: c <= i < m ==> res[i] == -1)
    && (forall i, s :: 0 <= i < c && 0 <= s < |vectors| && s !in res[..c] ==>
          dist(vectors[res[i]]) <= dist(vectors[s]))
  }

  datatype Candidate = Candidate(dist: real, slot: nat)

  predicate CandidateLeq(x: Candidate, y: Candidate) {
    x.dist < y.dist || (x.dist == y.dist && x.slot <= y.slot)
  }

  /** `slots` are the k nearest live slots, nearest first, or all live slots when there are fewer. */
  ghost predicate NearestLive(v: Slots, slots: seq<nat>, dist: Vector -> real, k: nat)
    requires WellFormed(v)
  {
    && Distinct(slots)
    && (forall i :: 0 <= i < |slots| ==> slots[i] in LiveSlots(v) && slots[i] < |v.vectors|)
    && |slots| == Min(k, |LiveSlots(v)|)
    && (forall i, j :: 0 <= i < j < |slots| ==> dist(v.vectors[slots[i]]) <= dist(v.vectors[slots[j]]))
    && (forall s, t :: s in slots && t in LiveSlots(v) && t !in slots ==> dist(v.vectors[s]) <= dist(v.vectors[t]))
  }

  /** `hits` reports the slots by document id and distance. */
  ghost predicate HitsAt(hits: seq<Hit>, v: Slots, slots: seq<nat>, dist: Vector -> real)
    requires WellFormed(v)
  {
    && |hits| == |slots|
    && forall i :: 0 <= i < |hits| ==> slots[i] in v.inv && hits[i] == Hit(dist(v.vectors[slots[i]]), v.inv[slots[i]])
  }

  /** The slots of an answer that survive the filter. */
  ghost function Survivors(v: Slots, res: seq<int>): set<nat> {
    set s: nat | s in v.inv && s !in v.erased && s in res
  }

  ghost function FetchedSlots(v: Slots, res: seq<int>): set<nat> {
    set s: nat | s in v.inv && s in res
  }

  lemma {:induction false} NatPrefixCount(res: seq<int>, c: nat, fetched: set<nat>)
    requires c <= |res|
    requires forall i :: 0 <= i < c ==> res[i] >= 0
    requires forall i, j :: 0 <= i < j < c ==> res[i] != res[j]
    requires forall s: nat :: s in fetched <==> s in res[..c]
    ensures |fetched| == c
  {
    if c == 0 {
      assert fetched == {};
    } else {
      var x: nat := res[c - 1];
      assert res[..c] == res[..c - 1] + [x];
      NatPrefixCount(res, c - 1, fetched - {x});
      assert fetched == (fetched - {x}) + {x};
    }
  }

  lemma {:induction false} FetchedCount(v: Slots, res: seq<int>, dist: Vector -> real, m: nat)
    requires WellFormed(v) && BackendAnswer(res, v.vectors, dist, m)
    ensures |FetchedSlots(v, res)| == Min(m, v.nextId)
  {
    var c := Min(m, v.nextId);
    forall s: nat ensures s in FetchedSlots(v, res) <==> s in res[..c] {
      if s in res {
        var i :| 0 <= i < |res| && res[i] == s;
        assert i < c;
        assert res[..c][i] == s;
      }
      if s in res[..c] {
        var i :| 0 <= i < c && res[..c][i] == s;
        assert res[i] == s;
      }
    }
    NatPrefixCount(res, c, FetchedSlots(v, res));
  }

  /** The counting argument: at most |erased| of the fetched slots are dead, so asking for k + |erased|
      leaves k live ones, or every live one. */
  lemma {:induction false} OverfetchSuffices(v: Slots, res: seq<int>, dist: Vector -> real, k: nat)
    requires WellFormed(v) && BackendAnswer(res, v.vectors, dist, k + |v.erased|)
    ensures Survivors(v, res) <= LiveSlots(v)
    ensures Min(k, |Survivors(v, res)|) == Min(k, |LiveSlots(v)|)
  {
    FetchedCount(v, res, dist, k + |v.erased|);
    var fetched, kept := FetchedSlots(v, res), Survivors(v, res);
    var dead := fetched * v.erased;
    assert fetched == kept + dead;
    SubsetCount(dead, v.erased);
    assert kept <= LiveSlots(v);
    SubsetCount(kept, LiveSlots(v));
    Range(v.inv.Keys, v.nextId);
    if k + |v.erased| > v.nextId {
      SubsetCount(fetched, v.inv.Keys);
      assert kept == LiveSlots(v);
    }
  }

  /** A fetched slot is never farther than one that was not fetched. */
  lemma {:induction false} UnfetchedIsFarther(v: Slots, res: seq<int>, dist: Vector -> real, m: nat, s: nat, t: nat)
    requires WellFormed(v) && BackendAnswer(res, v.vectors, dist, m)
    requires s in Survivors(v, res) && t in LiveSlots(v) && t !in Survivors(v, res)
    ensures dist(v.vectors[s]) <= dist(v.vectors[t])
  {
    var c := Min(m, v.nextId);
    var i :| 0 <= i < |res| && res[i] == s;
    assert i < c;
    assert t !in res;
    assert t !in res[..c];
  }

  ghost function SlotsOf(cs: seq<Candidate>): seq<nat> {
    seq(|cs|, i requires 0 <= i < |cs| => cs[i].slot)
  }

  /** The candidates hold exactly the kept slots, each with its own distance. */
  ghost predicate CandidatesFor(v: Slots, cs: set<Candidate>, slots: set<nat>, dist: Vector -> real)
    requires WellFormed(v)
  {
    && (forall c :: c in cs ==> c.slot in slots && c.slot in v.inv && c.dist == dist(v.vectors[c.slot]))
    && (forall s :: s in slots ==> s in v.inv && Candidate(dist(v.vectors[s]), s) in cs)
  }

  lemma {:induction false} SlotsOfSorted(v: Slots, sorted: seq<Candidate>, slots: set<nat>, dist: Vector -> real)
    requires WellFormed(v) && CandidatesFor(v, Elems(sorted), slots, dist)
    requires Distinct(sorted) && Sorted(CandidateLeq, sorted)
    ensures Distinct(SlotsOf(sorted)) && Elems(SlotsOf(sorted)) == slots
    ensures NearestFirst(v, SlotsOf(sorted), dist)
    ensures forall i :: 0 <= i < |sorted| ==>
      sorted[i].slot in v.inv && sorted[i].dist == dist(v.vectors[sorted[i].slot])
  {
    forall i | 0 <= i < |sorted|
      ensures sorted[i].slot in slots && sorted[i].slot in v.inv && sorted[i].dist == dist(v.vectors[sorted[i].slot])
    {
      assert sorted[i] in Elems(sorted);
    }
    forall i, j | 0 <= i < j < |sorted| ensures sorted[i].slot != sorted[j].slot {
      assert sorted[i] != sorted[j];
    }
    forall i, j | 0 <= i < j < |sorted| ensures sorted[i].dist <= sorted[j].dist {
      assert CandidateLeq(sorted[i], sorted[j]);
    }
    forall s | s in slots ensures s in Elems(SlotsOf(sorted)) {
      var c := Candidate(dist(v.vectors[s]), s);
      assert c in Elems(sorted);
      var i :| 0 <= i < |sorted| && sorted[i] == c;
      assert SlotsOf(sorted)[i] == s;
    }
    forall s | s in Elems(SlotsOf(sorted)) ensures s in slots {
      var i :| 0 <= i < |sorted| && SlotsOf(sorted)[i] == s;
    }
  }

  /** `all` lists slots nearest first. */
  ghost predicate NearestFirst(v: Slots, all: seq<nat>, dist: Vector -> real) {
    && (forall i :: 0 <= i < |all| ==> all[i] < |v.vectors|)
    && (forall i, j :: 0 <= i < j < |all| ==> dist(v.vectors[all[i]]) <= dist(v.vectors[all[j]]))
  }

  /** No live slot outside `all` is closer than one inside. */
  ghost predicate OthersFarther(v: Slots, all: seq<nat>, dist: Vector -> real)
    requires WellFormed(v) && NearestFirst(v, all, dist)
  {
    forall i, t :: 0 <= i < |all| && t in LiveSlots(v) && t !in all ==> dist(v.vectors[all[i]]) <= dist(v.vectors[t])
  }

  lemma {:induction false} SurvivorsNearest(v: Slots, res: seq<int>, all: seq<nat>, dist: Vector -> real, m: nat)
    requires WellFormed(v) && BackendAnswer(res, v.vectors, dist, m)
    requires Elems(all) == Survivors(v, res) && NearestFirst(v, all, dist)
    ensures OthersFarther(v, all, dist)
  {
    forall i, t | 0 <= i < |all| && t in LiveSlots(v) && t !in all
      ensures dist(v.vectors[all[i]]) <= dist(v.vectors[t])
    {
      assert all[i] in Elems(all) && t !in Elems(all);
      UnfetchedIsFarther(v, res, dist, m, all[i], t);
    }
  }

  lemma {:induction false} PrefixIsNearest(v: Slots, all: seq<nat>, dist: Vector -> real, k: nat)
    requires WellFormed(v) && Distinct(all) && NearestFirst(v, all, dist) && OthersFarther(v, all, dist)
    requires Elems(all) <= LiveSlots(v) && Min(k, |all|) == Min(k, |LiveSlots(v)|)
    ensures NearestLive(v, all[..Min(k, |all|)], dist, k)
  {
    var n := Min(k, |all|);
    var slots := all[..n];
    PrefixInOrder(v, all, dist, n, slots);
    forall s, t | s in slots && t in LiveSlots(v) && t !in slots ensures dist(v.vectors[s]) <= dist(v.vectors[t]) {
      var i :| 0 <= i < n && slots[i] == s;
      PrefixNearer(v, all, dist, n, i, t);
    }
  }

  lemma {:induction false} PrefixInOrder(v: Slots, all: seq<nat>, dist: Vector -> real, n: nat, slots: seq<nat>)
    requires WellFormed(v) && Distinct(all) && NearestFirst(v, all, dist) && Elems(all) <= LiveSlots(v)
    requires n <= |all| && slots == all[..n]
    ensures Distinct(slots) && NearestFirst(v, slots, dist)
    ensures forall i :: 0 <= i < |slots| ==> slots[i] in LiveSlots(v) && slots[i] < |v.vectors|
  {
    forall i | 0 <= i < |slots| ensures slots[i] in LiveSlots(v) && slots[i] < |v.vectors| {
      assert all[i] in Elems(all);
    }
  }

  lemma {:induction false} PrefixNearer(v: Slots, all: seq<nat>, dist: Vector -> real, n: nat, i: nat, t: nat)
    requires WellFormed(v) && NearestFirst(v, all, dist) && OthersFarther(v, all, dist)
    requires i < n <= |all| && t in LiveSlots(v) && t !in all[..n]
    ensures dist(v.vectors[all[i]]) <= dist(v.vectors[t])
  {
    if t in all {
      var j := PastPrefix(all, n, t);
    }
  }

  lemma {:induction false} PrefixSnoc<T>(s: seq<T>, n: nat)
    requires n < |s|
    ensures s[..n + 1] == s[..n] + [s[n]]
  {
  }

  lemma {:induction false} PastPrefix<T>(s: seq<T>, n: nat, x: T) returns (j: nat)
    requires n <= |s| && x in s && x !in s[..n]
    ensures n <= j < |s| && s[j] == x
  {
    j :| 0 <= j < |s| && s[j] == x;
    assert forall a :: 0 <= a < n ==> s[a] == s[..n][a];
  }

  /** Cutting the sorted survivors at k gives the k nearest live slots. */
  lemma {:induction false} CutIsNearest(v: Slots, res: seq<int>, sorted: seq<Candidate>, dist: Vector -> real, k: nat)
    requires WellFormed(v) && BackendAnswer(res, v.vectors, dist, k + |v.erased|)
    requires CandidatesFor(v, Elems(sorted), Survivors(v, res), dist)
    requires Distinct(sorted) && Sorted(CandidateLeq, sorted)
    ensures NearestLive(v, SlotsOf(sorted)[..Min(k, |sorted|)], dist, k)
  {
    OverfetchSuffices(v, res, dist, k);
    SlotsOfSorted(v, sorted, Survivors(v, res), dist);
    DistinctCount(SlotsOf(sorted));
    SurvivorsNearest(v, res, SlotsOf(sorted), dist, k + |v.erased|);
    PrefixIsNearest(v, SlotsOf(sorted), dist, k);
  }

  /** Slot s comes before slot t: it is nearer, or as near and lower. */
  ghost predicate SlotBefore(v: Slots, dist: Vector -> real, s: nat, t: nat)
    requires s < |v.vectors| && t < |v.vectors|
  {
    dist(v.vectors[s]) < dist(v.vectors[t]) || (dist(v.vectors[s]) == dist(v.vectors[t]) && s < t)
  }

  /** Of the live slots the backend answered, these are the first in that order, in that order. */
  ghost predicate FirstAnswered(v: Slots, res: seq<int>, slots: seq<nat>, dist: Vector -> real) {
    && (forall i :: 0 <= i < |slots| ==> slots[i] < |v.vectors|)
    && (forall i, j :: 0 <= i < j < |slots| ==> SlotBefore(v, dist, slots[i], slots[j]))
    && (forall i, t :: 0 <= i < |slots| && t in LiveSlots(v) && t < |v.vectors| && t in res && t !in slots ==>
          SlotBefore(v, dist, slots[i], t))
  }

  lemma {:induction false} SortedSlots(v: Slots, sorted: seq<Candidate>, slots: set<nat>, dist: Vector -> real, i: nat,
      j: nat)
    requires WellFormed(v) && CandidatesFor(v, Elems(sorted), slots, dist)
    requires Distinct(sorted) && Sorted(CandidateLeq, sorted) && i < j < |sorted|
    ensures sorted[i].slot < |v.vectors| && sorted[j].slot < |v.vectors|
    ensures SlotBefore(v, dist, sorted[i].slot, sorted[j].slot)
  {
    assert sorted[i] in Elems(sorted) && sorted[j] in Elems(sorted);
    assert CandidateLeq(sorted[i], sorted[j]) && sorted[i] != sorted[j];
  }

  lemma {:induction false} CutIsFirst(v: Slots, res: seq<int>, sorted: seq<Candidate>, dist: Vector -> real, n: nat)
    requires WellFormed(v) && CandidatesFor(v, Elems(sorted), Survivors(v, res), dist)
    requires Distinct(sorted) && Sorted(CandidateLeq, sorted) && n <= |sorted|
    ensures FirstAnswered(v, res, SlotsOf(sorted)[..n], dist)
  {
    var slots := SlotsOf(sorted)[..n];
    assert forall i :: 0 <= i < |sorted| ==> sorted[i] in Elems(sorted);
    forall i, j | 0 <= i < j < |slots| ensures SlotBefore(v, dist, slots[i], slots[j]) {
      SortedSlots(v, sorted, Survivors(v, res), dist, i, j);
    }
    forall i, t | 0 <= i < |slots| && t in LiveSlots(v) && t < |v.vectors| && t in res && t !in slots
      ensures SlotBefore(v, dist, slots[i], t)
    {
      assert t in Survivors(v, res);
      var c := Candidate(dist(v.vectors[t]), t);
      assert c in Elems(sorted);
      var j :| 0 <= j < |sorted| && sorted[j] == c;
      assert SlotsOf(sorted)[j] == t;
      var k := PastPrefix(SlotsOf(sorted), n, t);
      SortedSlots(v, sorted, Survivors(v, res), dist, i, k);
    }
  }

  lemma {:induction false} CollectStep(v: Slots, idxs: seq<nat>, left: set<nat>, key: nat)
    requires WellFormed(v) && key in left && left <= v.inv.Keys
    requires Elems(idxs) == LiveSlots(v) - left && Distinct(idxs)
    ensures key in v.erased ==> Elems(idxs) == LiveSlots(v) - (left - {key})
    ensures key !in v.erased ==> Elems(idxs + [key]) == LiveSlots(v) - (left - {key}) && Distinct(idxs + [key])
  {
    assert key !in Elems(idxs);
    assert Elems(idxs + [key]) == Elems(idxs) + {key};
  }

  class FaissIndex {
    var vectors: seq<Vector>
    var nextId: nat
    var ids: map<DocId, nat>
    var inv: map<nat, DocId>
    var erased: set<nat>

    ghost function Value(): Slots
      reads this
    {
      Slots(vectors, nextId, ids, inv, erased)
    }

    constructor ()
      ensures Value() == EMPTY
    {
      vectors, nextId, ids, inv, erased := [], 0, map[], map[], {};
    }

    method AddBatch(docs: seq<Doc>)
      modifies this
      ensures Value() == SlotModel.AddBatch(old(Value()), docs)
    {
      ghost var stored := vectors;
      vectors := vectors + seq(|docs|, i requires 0 <= i < |docs| => docs[i].vec);
      ghost var done := Slots(stored, nextId, ids, inv, erased);
      var i := 0;
      while i < |docs|
        invariant 0 <= i <= |docs|
        invariant |vectors| == |stored| + |docs|
        invariant done == Slots(vectors[..|stored| + i], nextId, ids, inv, erased)
        invariant forall j :: 0 <= j < |docs| ==> vectors[|stored| + j] == docs[j].vec
        invariant SlotModel.AddBatch(old(Value()), docs) == SlotModel.AddBatch(done, docs[i..])
      {
        ids := ids[docs[i].id := nextId];
        inv := inv[nextId := docs[i].id];
        nextId := nextId + 1;
        done := AddOne(done, docs[i]);
        PrefixSnoc(vectors, |stored| + i);
        assert docs[i..][1..] == docs[i + 1..];
        i := i + 1;
      }
      assert vectors[..|stored| + |docs|] == vectors;
    }

    method EraseBatch(xs: seq<DocId>)
      modifies this
      ensures Value() == SlotModel.EraseBatch(old(Value()), xs)
    {
      var i := 0;
      while i < |xs|
        invariant 0 <= i <= |xs|
        invariant SlotModel.EraseBatch(old(Value()), xs) == SlotModel.EraseBatch(Value(), xs[i..])
      {
        if xs[i] in ids {
          erased := erased + {ids[xs[i]]};
        }
        assert xs[i..][1..] == xs[i + 1..];
        i := i + 1;
      }
    }

    /** Adds the documents of the live slots of `other` here, in the hash order of its map. */
    method MergeFromOther(other: FaissIndex) returns (ghost order: seq<nat>)
      requires WellFormed(other.Value())
      modifies this
      ensures Walks(order, old(other.Value()))
      ensures Value() == MergeFrom(old(Value()), old(other.Value()), order)
    {
      var idxs, docs := other.CollectLive();
      order := idxs;
      AddBatch(docs);
    }

    method CollectLive() returns (idxs: seq<nat>, docs: seq<Doc>)
      requires WellFormed(Value())
      ensures Walks(idxs, Value()) && InSlots(idxs, Value())
      ensures docs == DocsAt(Value(), idxs)
    {
      idxs, docs := [], [];
      var left := inv.Keys;
      while left != {}
        invariant left <= inv.Keys
        invariant Elems(idxs) == LiveSlots(Value()) - left
        invariant Distinct(idxs)
        invariant InSlots(idxs, Value())
        invariant docs == DocsAt(Value(), idxs)
        decreases |left|
      {
        var key :| key in left;
        CollectStep(Value(), idxs, left, key);
        if key !in erased {
          idxs, docs := idxs + [key], docs + [Doc(inv[key], vectors[key])];
        }
        left := left - {key};
      }
    }

    /** Fetches k + |erased| slots, drops padding and tombstones, sorts the rest and keeps k.
        `res` is the backend's answer to that request. */
    method SingleSearch(dist: Vector -> real, k: nat, res: seq<int>) returns (hits: seq<Hit>, ghost slots: seq<nat>)
      requires WellFormed(Value())
      requires BackendAnswer(res, vectors, dist, k + |erased|)
      ensures NearestLive(Value(), slots, dist, k)
      ensures HitsAt(hits, Value(), slots, dist) && |hits| == Min(k, |LiveSlots(Value())|)
      ensures FirstAnswered(Value(), res, slots, dist)
    {
      var survivors := Filter(dist, res);
      CandidateLeqPreorder();
      var sorted := Arrange(survivors, CandidateLeq);
      CutIsNearest(Value(), res, sorted, dist, k);
      SlotsOfSorted(Value(), sorted, Survivors(Value(), res), dist);
      CutIsFirst(Value(), res, sorted, dist, Min(k, |sorted|));
      slots := SlotsOf(sorted)[..Min(k, |sorted|)];
      hits := Cut(dist, sorted, k);
    }

    method Cut(dist: Vector -> real, sorted: seq<Candidate>, k: nat) returns (hits: seq<Hit>)
      requires WellFormed(Value())
      requires forall i :: 0 <= i < |sorted| ==>
        sorted[i].slot in inv && sorted[i].dist == dist(vectors[sorted[i].slot])
      ensures HitsAt(hits, Value(), SlotsOf(sorted)[..Min(k, |sorted|)], dist)
    {
      hits := [];
      var i := 0;
      while i < k && i < |sorted|
        invariant 0 <= i <= Min(k, |sorted|)
        invariant HitsAt(hits, Value(), SlotsOf(sorted)[..i], dist)
      {
        hits := hits + [Hit(sorted[i].dist, inv[sorted[i].slot])];
        i := i + 1;
      }
    }

    method Filter(dist: Vector -> real, res: seq<int>) returns (survivors: set<Candidate>)
      requires WellFormed(Value())
      ensures CandidatesFor(Value(), survivors, Survivors(Value(), res), dist)
    {
      survivors := {};
      var i := 0;
      assert Survivors(Value(), res[..0]) == {};
      while i < |res|
        invariant 0 <= i <= |res|
        invariant CandidatesFor(Value(), survivors, Survivors(Value(), res[..i]), dist)
      {
        assert res[..i + 1] == res[..i] + [res[i]];
        if !(res[i] == -1 || res[i] < 0 || res[i] !in inv || res[i] in erased) {
          assert Survivors(Value(), res[..i + 1]) == Survivors(Value(), res[..i]) + {res[i]};
          survivors := survivors + {Candidate(dist(vectors[res[i]]), res[i])};
        } else {
          assert Survivors(Value(), res[..i + 1]) == Survivors(Value(), res[..i]);
        }
        i := i + 1;
      }
      assert res[..|res|] == res;
    }

    function GetSize(): int
      reads this
    {
      |ids| - |erased|
    }
  }

  lemma {:induction false} CandidateLeqPreorder()
    ensures TotalPreorder(CandidateLeq)
  {
  }
}
