/** Writer-to-searcher replication as a step system: writes and queued tasks interleave in any order, each atomic under
    the writer's lock, tasks in the order they were queued. */
module Replication {
  import opened Prelude
  import opened Levels
  import opened IndexModel
  import opened IndexInvariant
  import opened IndexSteps
  import opened IndexRuns
  import opened TaskQueue

  /** The writer's index (its outbox is the task queue), the object store, and the index of every searcher. */
  datatype Rep = Rep(w: World, store: Store, searchers: seq<State>)

  // ------------------------------------------------------------------- the searcher

  /** `pushSegment`: a fetched segment joins the list and the levels. */
  function PushSegment(s: State, seg: Seg): State {
    s.(heap := s.heap + [seg],
       segments := s.segments + [|s.heap|],
       levels := Place(s.levels, |s.heap|, seg.Size()),
       counter := s.counter + 1,
       sz := s.sz + seg.Size())
  }

  /** The fetch loop of `ProcessUpdateRequest`. */
  function FetchAll(s: State, store: Store, ids: seq<SegId>): State
    decreases |ids|
  {
    if ids == [] then s
    else FetchAll(if ids[0] in store then PushSegment(s, store[ids[0]]) else s, store, ids[1..])
  }

  function NameList(heap: seq<Seg>, hs: seq<nat>): (ids: seq<SegId>)
    requires forall h :: h in hs ==> h < |heap|
    ensures |ids| == |hs| && forall i :: 0 <= i < |hs| ==> hs[i] in hs && ids[i] == heap[hs[i]].id
  {
    seq<SegId>(|hs|, i requires 0 <= i < |hs| => assert hs[i] in hs; heap[hs[i]].id)
  }

  // ------------------------------------------------------------------------- steps

  ghost predicate CanRun(r: Rep) {
    && Idle(r.w.c) && r.w.c.outbox != []
    && forall h :: h in r.w.c.outbox[0].inserted ==> h < |r.w.c.st.heap|
  }

  /** One queued task: put, delete, notify every searcher. */
  ghost function RunTask(r: Rep): Rep
    requires CanRun(r)
  {
    var t, heap := r.w.c.outbox[0], r.w.c.st.heap;
    var store := StoreAfter(r.store, heap, t);
    Rep(r.w.(c := r.w.c.(outbox := r.w.c.outbox[1..])),
        store,
        seq(|r.searchers|, i requires 0 <= i < |r.searchers| =>
          FetchAll(r.searchers[i], store, NameList(heap, t.inserted))))
  }

  // -------------------------------------------------------------------- invariant

  ghost predicate QueueInv(c: Config, store: Store) {
    var st, q := c.st, Queue(c);
    && PublishOk(st.heap, LevelSet(st), st.last, q)
    && NoClash(st.heap, q)
    && EraseOk(st.heap, LevelSet(st), st.last, st.drawn, q)
    && Reaches(st.heap, LevelSet(st), q, store)
    && Leaves(st.heap, LevelSet(st), st.drawn, q, store)
  }

  /** Only documents of the writer that have left its open segment. */
  ghost predicate Sealed(live: Docs, open: set<DocId>, added: Docs) {
    SubMap(live, added) && live.Keys !! open
  }

  ghost predicate StoreSealed(store: Store, open: set<DocId>, added: Docs) {
    forall x :: x in store ==> Sealed(store[x].live, open, added)
  }

  ghost predicate Fed(s: State, open: set<DocId>, added: Docs) {
    && s.last < |s.heap| && s.heap[s.last].live == map[]
    && (forall h :: h in s.segments ==> h < |s.heap| && Sealed(s.heap[h].live, open, added))
  }

  ghost predicate Has(s: State, x: DocId) {
    exists h :: h in s.segments && h < |s.heap| && x in s.heap[h].live
  }

  ghost predicate Coming(heap: seq<Seg>, q: seq<Task>, x: DocId) {
    exists i, o :: 0 <= i < |q| && o in q[i].inserted && Holds(heap, o, x)
  }

  /** What is live in the writer's levels is at the searcher or on its way. */
  ghost predicate CatchesUp(s: State, heap: seq<Seg>, lv: set<nat>, q: seq<Task>) {
    forall o, x :: o in lv && Holds(heap, o, x) ==> Has(s, x) || Coming(heap, q, x)
  }

  ghost predicate RepInv(r: Rep, t: nat) {
    var c := r.w.c;
    && Inv(r.w, t)
    && QueueInv(c, r.store)
    && StoreSealed(r.store, c.st.heap[c.st.last].known, r.w.added)
    && (forall i :: 0 <= i < |r.searchers| ==>
          && Fed(r.searchers[i], c.st.heap[c.st.last].known, r.w.added)
          && CatchesUp(r.searchers[i], c.st.heap, LevelSet(c.st), Queue(c)))
  }

  // ----------------------------------------------------------- writer steps: the queue

  /** Nothing in the queue clauses depends on contents, only on names. */
  lemma {:induction false} SameNames(heap: seq<Seg>, heap': seq<Seg>, lv: set<nat>, last: nat, drawn: nat,
      q: seq<Task>, store: Store)
    requires |heap| == |heap'| && forall h :: 0 <= h < |heap| ==> heap'[h].id == heap[h].id
    requires PublishOk(heap, lv, last, q) && NoClash(heap, q) && EraseOk(heap, lv, last, drawn, q)
    requires Reaches(heap, lv, q, store) && Leaves(heap, lv, drawn, q, store)
    ensures PublishOk(heap', lv, last, q) && NoClash(heap', q) && EraseOk(heap', lv, last, drawn, q)
    ensures Reaches(heap', lv, q, store) && Leaves(heap', lv, drawn, q, store)
  {
    assert NamesIn(heap', lv) == NamesIn(heap, lv);
  }

  lemma {:induction false} PutDocQueue(c: Config, d: Doc, store: Store)
    requires c.st.last < |c.st.heap| && QueueInv(c, store)
    ensures QueueInv(c.(st := PutDoc(c.st, d)), store)
  {
    var st' := PutDoc(c.st, d);
    assert LevelSet(st') == LevelSet(c.st);
    SameNames(c.st.heap, st'.heap, LevelSet(c.st), c.st.last, c.st.drawn, Queue(c), store);
  }

  lemma {:induction false} EraseQueue(c: Config, xs: set<DocId>, store: Store)
    requires QueueInv(c, store)
    ensures QueueInv(Erase(c, xs), store)
  {
    var st' := EraseEverywhere(c.st, xs);
    assert LevelSet(st') == LevelSet(c.st);
    SameNames(c.st.heap, st'.heap, LevelSet(c.st), c.st.last, c.st.drawn, Queue(c), store);
  }

  lemma {:induction false} SealQueue(c: Config, store: Store)
    requires HandlesOk(c.st) && Listed(c.st) && QueueInv(c, store)
    ensures QueueInv(SealStep(c), store)
  {
    var st, q := c.st, Queue(c);
    SealBag(st);
    SealPublish(st.heap, LevelSet(st), st.last, st.drawn, q);
    SealStore(st.heap, LevelSet(st), st.last, st.drawn, q, store);
    assert Queue(SealStep(c)) == WithLast(q, q[|q| - 1].(inserted := q[|q| - 1].inserted + [st.last]));
  }

  lemma {:induction false} PairKeepsQueue(c: Config, j: nat, store: Store)
    requires Shape(c) && Listed(c.st) && Names(c.st.heap, c.st.drawn) && Collected(c) && QueueInv(c, store)
    requires c.phase.Passing? && PairAt(c.st, c.phase.level, j)
    ensures QueueInv(PairStep(c, j), store)
  {
    var st, q, i := c.st, Queue(c), c.phase.level;
    var l, r := st.levels[i][j].value, st.levels[i][j + 1].value;
    PairListed(st, i, j);
    PairIsNew(c, j);
    PairPublish(st.heap, LevelSet(st), st.last, st.drawn, l, r, q);
    PairNoClash(st.heap, st.last, LevelSet(st), st.drawn, l, r, q);
    PairEraseOk(st.heap, LevelSet(st), st.last, st.drawn, l, r, q);
    PairStore(st.heap, LevelSet(st), st.drawn, l, r, q, store);
    assert Queue(PairStep(c, j)) == PairQueue(st.heap, l, r, q);
  }

  /** Flushing turns the collected task into a queued one; an empty one is dropped. */
  lemma {:induction false} FlushedQueue(c: Config, c': Config, store: Store)
    requires QueueInv(c, store) && LevelSet(c'.st) == LevelSet(c.st)
    requires c'.st.heap == c.st.heap && c'.st.last == c.st.last && c'.st.drawn == c.st.drawn
    requires Queue(c') == Queue(c) || Queue(c') == Queue(c) + [NO_TASK]
    ensures QueueInv(c', store)
  {
    EmptyTask(c.st.heap, LevelSet(c.st), c.st.last, c.st.drawn, Queue(c), store);
  }

  // -------------------------------------------------------- writer steps: the documents

  lemma {:induction false} SealedLater(live: Docs, open: set<DocId>, added: Docs, d: Doc)
    requires Sealed(live, open, added) && d.id !in added
    ensures Sealed(live, open + {d.id}, added[d.id := d.vec])
  {
  }

  lemma {:induction false} PutDocCatchesUp(s: State, heap: seq<Seg>, lv: set<nat>, last: nat, q: seq<Task>, d: Doc)
    requires last < |heap| && last !in lv && CatchesUp(s, heap, lv, q)
    ensures CatchesUp(s, DocIn(heap, last, d), lv, q)
  {
    var heap' := DocIn(heap, last, d);
    forall o, x | o in lv && Holds(heap', o, x) ensures Has(s, x) || Coming(heap', q, x) {
      assert Holds(heap, o, x);
      if !Has(s, x) {
        var i, g :| 0 <= i < |q| && g in q[i].inserted && Holds(heap, g, x);
        assert Holds(heap', g, x);
      }
    }
  }

  lemma {:induction false} SealCatchesUp(s: State, heap: seq<Seg>, lv: set<nat>, last: nat, drawn: nat, q: seq<Task>)
    requires q != [] && last < |heap| && (forall h :: h in lv ==> h < |heap|) && CatchesUp(s, heap, lv, q)
    ensures CatchesUp(s, Opened(heap, drawn), lv + {last},
                      WithLast(q, q[|q| - 1].(inserted := q[|q| - 1].inserted + [last])))
  {
    var heap', n := Opened(heap, drawn), |q| - 1;
    var q' := WithLast(q, q[n].(inserted := q[n].inserted + [last]));
    forall o, x | o in lv + {last} && Holds(heap', o, x) ensures Has(s, x) || Coming(heap', q', x) {
      if o == last {
        assert o in q'[n].inserted && Holds(heap', o, x);
      } else {
        assert o in lv && Holds(heap, o, x);
        if !Has(s, x) {
          var i, g :| 0 <= i < |q| && g in q[i].inserted && Holds(heap, g, x);
          assert g in q'[i].inserted && Holds(heap', g, x);
        }
      }
    }
  }

  lemma {:induction false} PairCatchesUp(s: State, heap: seq<Seg>, lv: set<nat>, drawn: nat, l: nat, r: nat,
      q: seq<Task>)
    requires q != [] && l < |heap| && r < |heap| && CatchesUp(s, heap, lv, q)
    ensures CatchesUp(s, Absorbed(heap, l, r, drawn), lv - {r}, PairQueue(heap, l, r, q))
  {
    var heap', q', n := Absorbed(heap, l, r, drawn), PairQueue(heap, l, r, q), |q| - 1;
    forall o, x | o in lv - {r} && Holds(heap', o, x) ensures Has(s, x) || Coming(heap', q', x) {
      if o == l {
        assert o in q'[n].inserted && Holds(heap', o, x);
      } else {
        assert o in lv && Holds(heap, o, x);
        if !Has(s, x) {
          var i, g :| 0 <= i < |q| && g in q[i].inserted && Holds(heap, g, x);
          assert g in q'[i].inserted && Holds(heap', g, x);
        }
      }
    }
  }

  lemma {:induction false} EraseCatchesUp(s: State, heap: seq<Seg>, segments: seq<nat>, lv: set<nat>, last: nat,
      q: seq<Task>, xs: set<DocId>)
    requires (forall h :: h in lv ==> h in segments) && CatchesUp(s, heap, lv, q)
    ensures CatchesUp(s, Marked(heap, segments, last, xs), lv, q)
  {
    var heap' := Marked(heap, segments, last, xs);
    forall o, x | o in lv && Holds(heap', o, x) ensures Has(s, x) || Coming(heap', q, x) {
      assert Holds(heap, o, x) && x !in xs;
      if !Has(s, x) {
        var i, g :| 0 <= i < |q| && g in q[i].inserted && Holds(heap, g, x);
        assert Holds(heap', g, x);
      }
    }
  }

  lemma {:induction false} FlushedCatchesUp(s: State, heap: seq<Seg>, lv: set<nat>, q: seq<Task>)
    requires CatchesUp(s, heap, lv, q)
    ensures CatchesUp(s, heap, lv, q + [NO_TASK])
  {
    forall o, x | o in lv && Holds(heap, o, x) ensures Has(s, x) || Coming(heap, q + [NO_TASK], x) {
      if !Has(s, x) {
        var i, g :| 0 <= i < |q| && g in q[i].inserted && Holds(heap, g, x);
        assert g in (q + [NO_TASK])[i].inserted;
      }
    }
  }

  // ------------------------------------------------------------------ the searcher fetches

  lemma {:induction false} PushSegmentHas(s: State, seg: Seg, x: DocId)
    requires forall h :: h in s.segments ==> h < |s.heap|
    ensures Has(PushSegment(s, seg), x) <==> Has(s, x) || x in seg.live
  {
    var s' := PushSegment(s, seg);
    if x in seg.live {
      assert |s.heap| in s'.segments && x in s'.heap[|s.heap|].live;
    }
    if Has(s, x) {
      var h :| h in s.segments && h < |s.heap| && x in s.heap[h].live;
      assert h in s'.segments && s'.heap[h] == s.heap[h];
    }
  }

  lemma {:induction false} PushSegmentFed(s: State, seg: Seg, open: set<DocId>, added: Docs)
    requires Fed(s, open, added) && Sealed(seg.live, open, added)
    ensures Fed(PushSegment(s, seg), open, added)
  {
  }

  lemma {:induction false} FetchAllFed(s: State, store: Store, ids: seq<SegId>, open: set<DocId>, added: Docs)
    requires Fed(s, open, added) && StoreSealed(store, open, added)
    ensures Fed(FetchAll(s, store, ids), open, added)
    decreases |ids|
  {
    if ids != [] {
      if ids[0] in store {
        PushSegmentFed(s, store[ids[0]], open, added);
      }
      FetchAllFed(if ids[0] in store then PushSegment(s, store[ids[0]]) else s, store, ids[1..], open, added);
    }
  }

  lemma {:induction false} FetchAllHas(s: State, store: Store, ids: seq<SegId>, x: DocId)
    requires forall h :: h in s.segments ==> h < |s.heap|
    ensures Has(FetchAll(s, store, ids), x) <==>
      Has(s, x) || exists id :: id in ids && id in store && x in store[id].live
    decreases |ids|
  {
    if ids != [] {
      var s1 := if ids[0] in store then PushSegment(s, store[ids[0]]) else s;
      if ids[0] in store {
        PushSegmentHas(s, store[ids[0]], x);
      }
      FetchAllHas(s1, store, ids[1..], x);
      assert ids == [ids[0]] + ids[1..];
    }
  }

  lemma {:induction false} RunCatchesUp(s: State, heap: seq<Seg>, lv: set<nat>, last: nat, drawn: nat, q: seq<Task>,
      store: Store)
    requires Names(heap, drawn) && q != [] && PublishOk(heap, lv, last, q) && NoClash(heap, q)
    requires CatchesUp(s, heap, lv, q) && forall h :: h in s.segments ==> h < |s.heap|
    requires forall h :: h in q[0].inserted ==> h < |heap|
    ensures CatchesUp(FetchAll(s, StoreAfter(store, heap, q[0]), NameList(heap, q[0].inserted)), heap, lv, q[1..])
  {
    var store', ids := StoreAfter(store, heap, q[0]), NameList(heap, q[0].inserted);
    var s' := FetchAll(s, store', ids);
    forall o, x | o in lv && Holds(heap, o, x) ensures Has(s', x) || Coming(heap, q[1..], x) {
      FetchAllHas(s, store', ids, x);
      if !Has(s, x) {
        var i, g :| 0 <= i < |q| && g in q[i].inserted && Holds(heap, g, x);
        if i == 0 {
          FetchFinds(store, heap, lv, last, drawn, q, g);
          var k :| 0 <= k < |q[0].inserted| && q[0].inserted[k] == g;
          assert ids[k] == heap[g].id;
        } else {
          assert g in q[1..][i - 1].inserted;
        }
      }
    }
  }

  lemma {:induction false} StoreAfterSealed(store: Store, heap: seq<Seg>, t: Task, drawn: nat, last: nat, added: Docs)
    requires Names(heap, drawn) && Owned(heap, added) && LastApart(heap, last)
    requires forall h :: h in t.inserted ==> h < |heap| && h != last
    requires StoreSealed(store, heap[last].known, added)
    ensures StoreSealed(StoreAfter(store, heap, t), heap[last].known, added)
  {
    var store' := StoreAfter(store, heap, t);
    forall x | x in store' ensures Sealed(store'[x].live, heap[last].known, added) {
      PutObjectsEffect(store, heap, drawn, t.inserted, x);
      if x in NamesOf(heap, t.inserted) {
        var h :| h in t.inserted && heap[h].id == x;
        assert store'[x] == heap[h];
      }
    }
  }
}
