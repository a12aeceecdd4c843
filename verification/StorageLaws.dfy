/** What the small operations of the index do, each told by positions and sizes instead of by its steps. */
module StorageLaws {
  import opened Prelude
  import opened Levels
  import opened IndexModel
  import opened AddLaws
  import opened MergePasses
  import opened Replication
  import opened TaskQueue

  // --------------------------------------------------------------------------- levels

  lemma {:induction false} PowersOfTwo(a: nat, b: nat)
    ensures Pow2(0) == 1 && Pow2(1) == 2 && Pow2(a + b) == Pow2(a) * Pow2(b)
  {
    if a > 0 {
      PowersOfTwo(a - 1, b);
      assert Pow2(a + b) == 2 * Pow2(a - 1 + b);
      assert 2 * (Pow2(a - 1) * Pow2(b)) == 2 * Pow2(a - 1) * Pow2(b);
    }
  }

  lemma {:induction false} LevelForSize(size: nat) returns (lv: nat)
    ensures lv == LevelFor(size) && CeilLog(size, 0) <= lv + 1
    ensures size <= 2 ==> lv == 0
    ensures size > 2 ==> Pow2(lv) < size <= Pow2(lv + 1)
  {
    lv := LevelFor(size);
    var e := CeilLog(size, 0);
    PowersGrow(if e == 0 then 0 else e - 1);
    PowersGrow(lv + 1);
  }

  lemma {:induction false} PowersGrow(n: nat)
    ensures Pow2(n) >= n + 1
  {
    if n > 0 {
      PowersGrow(n - 1);
    }
  }

  /** A segment of n documents goes to the end of level zero if n is at most two, and else of the level i with
      2^i < n <= 2^(i+1); missing levels are added empty, and nothing else changes. */
  lemma {:induction false} PlacedByItsSize(levels: LevelTable, h: nat, size: nat) returns (lv: nat)
    ensures size <= 2 ==> lv == 0
    ensures size > 2 ==> Pow2(lv) < size <= Pow2(lv + 1)
    ensures
      var r := Place(levels, h, size);
      && |r| == (if |levels| <= lv then lv + 1 else |levels|)
      && r[lv] == (if lv < |levels| then levels[lv] else []) + [Some(h)]
      && forall i :: 0 <= i < |r| && i != lv ==> r[i] == if i < |levels| then levels[i] else []
  {
    lv := LevelForSize(size);
    var e := CeilLog(size, 0);
    var grown := GrowTo(GrowTo(levels, e), lv + 1);
    assert forall i :: 0 <= i < |grown| ==> grown[i] == if i < |levels| then levels[i] else [];
  }

  /** Compaction works slot by slot: nulls go, segments stay, in order. */
  lemma {:induction false} NullsGoInOrder(a: seq<Slot>, b: seq<Slot>, h: nat)
    ensures DropNulls([]) == [] && DropNulls([None]) == [] && DropNulls([Some(h)]) == [Some(h)]
    ensures DropNulls(a + b) == DropNulls(a) + DropNulls(b)
    decreases |b|
  {
    if b == [] {
      assert a + b == a;
    } else {
      var n := |b| - 1;
      assert (a + b)[..|a + b| - 1] == a + b[..n];
      NullsGoInOrder(a, b[..n], h);
    }
  }

  // -------------------------------------------------------------------------- the list

  /** Looking a name up and erasing removes the first entry that bears it, and only that one. */
  lemma {:induction false} FirstBearerGoes(segments: seq<nat>, heap: seq<Seg>, id: SegId) returns (k: nat)
    requires forall h :: h in segments ==> h < |heap|
    ensures k <= |segments| && forall i :: 0 <= i < k ==> segments[i] < |heap| && heap[segments[i]].id != id
    ensures k < |segments| ==> segments[k] < |heap| && heap[segments[k]].id == id
    ensures RemoveFirst(segments, heap, id) == if k < |segments| then segments[..k] + segments[k + 1..] else segments
  {
    if segments == [] {
      k := 0;
    } else {
      assert segments[0] in segments && forall h :: h in segments[1..] ==> h in segments;
      if heap[segments[0]].id == id {
        k := 0;
      } else {
        var k1 := FirstBearerGoes(segments[1..], heap, id);
        k := k1 + 1;
        assert forall i :: 0 <= i < |segments| ==> segments[i] in segments;
        FirstLater(segments, heap, id, k1);
      }
    }
  }

  lemma {:induction false} FirstLater(segments: seq<nat>, heap: seq<Seg>, id: SegId, k: nat)
    requires segments != [] && k <= |segments| - 1 && (forall i :: 0 <= i < |segments| ==> segments[i] < |heap|)
    requires heap[segments[0]].id != id && forall i :: 0 <= i < k ==> heap[segments[1..][i]].id != id
    ensures forall i :: 0 <= i < k + 1 ==> heap[segments[i]].id != id
    ensures [segments[0]] + segments[1..] == segments
    ensures k < |segments| - 1 ==>
      [segments[0]] + (segments[1..][..k] + segments[1..][k + 1..]) == segments[..k + 1] + segments[k + 2..]
  {
    forall i | 0 <= i < k + 1 ensures heap[segments[i]].id != id {
      assert i > 0 ==> segments[i] == segments[1..][i - 1];
    }
  }

  // ------------------------------------------------------------------------ the callbacks

  /** After a pass one callback is made if it merged anything, with the names given up, the right one of each pair
      first, and the products in order; and none otherwise. */
  lemma {:induction false} PassAnnounces(c: Config, amount: nat, js: seq<nat>, c': Config, left: nat)
    requires GreedyPass(c, amount, js, c', left) && c.cur == NO_TASK && Shape(c')
    ensures
      var heap, row := c.st.heap, c.st.levels[c.phase.level];
      && FlushPass(c').cur == NO_TASK && FlushPass(c').phase == Passing(c.phase.level + 1)
      && FlushPass(c').outbox ==
           c.outbox + if js == [] then [] else [Task(NamesGone(heap, row, js), Products(heap, row, js))]
  {
    var heap, row := c.st.heap, c.st.levels[c.phase.level];
    assert c'.cur == Task(NamesGone(heap, row, js), Products(heap, row, js));
    if js != [] {
      assert NamesGone(heap, row, js) != [] && Products(heap, row, js) != [];
    }
  }

  lemma {:induction false} FillingIsQuiet(c: Config, t: nat, docs: seq<Doc>)
    requires c.st.last < |c.st.heap|
    ensures PutAll(c, t, docs).outbox == c.outbox && PutAll(c, t, docs).cur.erased == c.cur.erased
    decreases |docs|
  {
    if docs != [] {
      FillingIsQuiet(Put(c, t, docs[0]), t, docs[1..]);
    }
  }

  /** Filling makes one callback with the segments it sealed, in order, and none if it sealed none. */
  lemma {:induction false} FillAnnounces(c: Config, t: nat, docs: seq<Doc>, c': Config)
    requires Shape(c) && c.cur == NO_TASK && Room(c, t, docs) && c' == PutAll(c, t, docs)
    ensures Shape(c') && |c.st.segments| <= |c'.st.segments|
    ensures FlushAdd(c').cur == NO_TASK && FlushAdd(c').st == c'.st
    ensures FlushAdd(c').outbox == c.outbox +
      if |c'.st.segments| == |c.st.segments| then [] else [Task([], c'.st.segments[|c.st.segments|..])]
  {
    PutAllKeepsShape(c, t, docs);
    FillingIsQuiet(c, t, docs);
    var k := FillingSeals(c, t, docs, c');
    assert c'.cur.inserted == c'.st.segments[|c.st.segments|..];
  }

  // ------------------------------------------------------------------------ the searcher

  /** The stored objects the names lead to, in order; names that lead nowhere are passed over. */
  ghost function Found(store: Store, ids: seq<SegId>): seq<Seg> {
    if ids == [] then []
    else
      var n := |ids| - 1;
      Found(store, ids[..n]) + if ids[n] in store then [store[ids[n]]] else []
  }

  ghost function SizesOf(segs: seq<Seg>): nat {
    if segs == [] then 0 else SizesOf(segs[..|segs| - 1]) + |segs[|segs| - 1].live|
  }

  lemma {:induction false} FoundFirst(store: Store, ids: seq<SegId>)
    requires ids != []
    ensures Found(store, ids) == (if ids[0] in store then [store[ids[0]]] else []) + Found(store, ids[1..])
    decreases |ids|
  {
    var n := |ids| - 1;
    if n == 0 {
      assert ids[..0] == [] && ids[1..] == [];
    } else {
      assert ids[..n][1..] == ids[1..][..n - 1] && ids[..n][0] == ids[0];
      FoundFirst(store, ids[..n]);
    }
  }

  lemma {:induction false} SizesFirst(s: Seg, segs: seq<Seg>)
    ensures SizesOf([s] + segs) == |s.live| + SizesOf(segs)
    decreases |segs|
  {
    if segs == [] {
      assert [s] + segs == [s] && [s][..0] == [];
    } else {
      var n := |segs| - 1;
      assert ([s] + segs)[..|segs|] == [s] + segs[..n];
      SizesFirst(s, segs[..n]);
    }
  }

  /** The segments stand in the list, in order, behind what was there. */
  ghost predicate InOrder(s: State, segs: seq<Seg>, s': State) {
    && s'.heap == s.heap + segs
    && |s'.segments| == |s.segments| + |segs| && s.segments <= s'.segments
    && forall i :: |s.segments| <= i < |s'.segments| ==> s'.segments[i] == |s.heap| + i - |s.segments|
  }

  lemma {:induction false} InOrderJoin(s: State, seg: Seg, s1: State, segs: seq<Seg>, s': State)
    requires InOrder(s, [seg], s1) && InOrder(s1, segs, s')
    ensures InOrder(s, [seg] + segs, s')
    ensures multiset(s'.segments[|s.segments|..]) == multiset{|s.heap|} + multiset(s'.segments[|s1.segments|..])
  {
    assert s'.segments[|s.segments|] == |s.heap|;
    assert s'.segments[|s.segments|..] == [|s.heap|] + s'.segments[|s1.segments|..];
  }

  /** Objects joined: listed in order, counted, their live documents counted, and in the levels once each. */
  ghost predicate Gained(s: State, segs: seq<Seg>, s': State) {
    && InOrder(s, segs, s') && s'.last == s.last && s'.drawn == s.drawn
    && s'.counter == s.counter + |segs| && s'.sz == s.sz + SizesOf(segs)
    && Bag(s'.levels) == Bag(s.levels) + multiset(s'.segments[|s.segments|..])
  }

  lemma {:induction false} PushGains(s: State, seg: Seg)
    ensures Gained(s, [seg], PushSegment(s, seg))
  {
    PlaceBag(s.levels, |s.heap|, seg.Size());
    SizesFirst(seg, []);
    assert [seg] + [] == [seg];
    var s' := PushSegment(s, seg);
    assert s'.segments[|s.segments|..] == [|s.heap|];
  }

  lemma {:induction false} GainsJoin(s: State, seg: Seg, s1: State, segs: seq<Seg>, s': State)
    requires Gained(s, [seg], s1) && Gained(s1, segs, s')
    ensures Gained(s, [seg] + segs, s')
  {
    InOrderJoin(s, seg, s1, segs, s');
    SizesFirst(seg, segs);
    SizesFirst(seg, []);
    assert [seg] + [] == [seg];
    assert s1.segments[|s.segments|..] == [|s.heap|];
  }

  /** An update makes a searcher list exactly the objects found, in the order of the names, and count them and their
      live documents; nothing leaves. */
  lemma {:induction false} FetchListsWhatItFinds(s: State, store: Store, ids: seq<SegId>, s': State)
    requires s' == FetchAll(s, store, ids)
    ensures Gained(s, Found(store, ids), s')
    decreases |ids|
  {
    if ids == [] {
      assert s.segments[|s.segments|..] == [];
    } else {
      FoundFirst(store, ids);
      if ids[0] in store {
        var s1 := PushSegment(s, store[ids[0]]);
        PushGains(s, store[ids[0]]);
        FetchListsWhatItFinds(s1, store, ids[1..], s');
        GainsJoin(s, store[ids[0]], s1, Found(store, ids[1..]), s');
      } else {
        FetchListsWhatItFinds(s, store, ids[1..], s');
        assert [] + Found(store, ids[1..]) == Found(store, ids[1..]);
      }
    }
  }
}
