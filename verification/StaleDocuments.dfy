/** Erases are not sent to searchers. Which runs leave a searcher with erased documents, exactly. */
module StaleDocuments {
  import Traces
  import opened Prelude
  import opened IndexModel
  import opened IndexInvariant
  import opened IndexSteps
  import opened IndexRuns
  import opened LevelSizes
  import opened TaskQueue
  import opened Replication
  import opened ReplicationRuns
  import opened ReplicationTheorems

  /** An erased document that the searcher has, or that an object of a queued task still holds. */
  ghost predicate Stale(w: World, s: State, x: DocId) {
    x in w.added && x !in w.plain && (Has(s, x) || Coming(w.c.st.heap, Queue(w.c), x))
  }

  ghost predicate NoneStale(w: World, s: State) {
    forall x :: !Stale(w, s, x)
  }

  ghost predicate Served(s: State, x: DocId) {
    exists v :: Serves(s, x, v)
  }

  /** Live in an object of a queued task that neither the list nor the open segment leads to, so that no erase
      reaches it any more. */
  ghost predicate HeldAside(c: Config, x: DocId) {
    exists p, o :: 0 <= p < |c.outbox| && o in c.outbox[p].inserted && o !in c.st.segments && o != c.st.last &&
                   Holds(c.st.heap, o, x)
  }

  /** An erase event finds none of its documents out of its reach. */
  ghost predicate ReachedBy(r: Rep, e: Event, i: nat) {
    e.Call? && e.op.EraseOp? && i < |r.searchers| ==>
      forall x :: x in e.op.xs ==> !Served(r.searchers[i], x) && !HeldAside(r.w.c, x)
  }

  /** At every erase of the run, no named document is served by searcher i or held aside by a queued task. */
  ghost predicate ErasesReach(r: Rep, t: nat, merging: bool, es: seq<Event>, i: nat)
    requires Shape(r.w.c)
    decreases |es|
  {
    es == [] || (ReachedBy(r, es[0], i) && ErasesReach(Happens(r, t, merging, es[0]), t, merging, es[1..], i))
  }

  // ----------------------------------------------------------------- what is on its way

  /** What a queue will bring of a document does not change when the objects in it hold it as before and what
      joins the queue does not hold it. */
  lemma {:induction false} ComingSame(heap: seq<Seg>, q: seq<Task>, heap': seq<Seg>, q': seq<Task>, x: DocId)
    requires |q| <= |q'|
    requires forall p, o :: 0 <= p < |q| && o in q[p].inserted ==> o in q'[p].inserted
    requires forall p, o :: 0 <= p < |q| && o in q[p].inserted ==> (Holds(heap, o, x) <==> Holds(heap', o, x))
    requires forall p, o :: 0 <= p < |q'| && o in q'[p].inserted && Holds(heap', o, x) ==> p < |q| && o in q[p].inserted
    ensures Coming(heap, q, x) <==> Coming(heap', q', x)
  {
    if Coming(heap, q, x) {
      var p, o :| 0 <= p < |q| && o in q[p].inserted && Holds(heap, o, x);
      assert o in q'[p].inserted && Holds(heap', o, x);
    }
    if Coming(heap', q', x) {
      var p, o :| 0 <= p < |q'| && o in q'[p].inserted && Holds(heap', o, x);
      assert o in q[p].inserted && Holds(heap, o, x);
    }
  }

  lemma {:induction false} PutDocComing(heap: seq<Seg>, lv: set<nat>, last: nat, q: seq<Task>, d: Doc, x: DocId)
    requires last < |heap| && PublishOk(heap, lv, last, q)
    ensures Coming(heap, q, x) <==> Coming(DocIn(heap, last, d), q, x)
  {
    ComingSame(heap, q, DocIn(heap, last, d), q, x);
  }

  lemma {:induction false} SealComing(heap: seq<Seg>, lv: set<nat>, last: nat, drawn: nat, q: seq<Task>, x: DocId)
    requires q != [] && last < |heap| && PublishOk(heap, lv, last, q) && x !in heap[last].live
    ensures
      var q' := WithLast(q, q[|q| - 1].(inserted := q[|q| - 1].inserted + [last]));
      Coming(heap, q, x) <==> Coming(Opened(heap, drawn), q', x)
  {
    ComingSame(heap, q, Opened(heap, drawn), WithLast(q, q[|q| - 1].(inserted := q[|q| - 1].inserted + [last])), x);
  }

  lemma {:induction false} PairComing(heap: seq<Seg>, l: nat, r: nat, drawn: nat, q: seq<Task>, x: DocId)
    requires q != [] && l < |heap| && r < |heap| && x !in heap[l].live && x !in heap[r].live
    ensures Coming(heap, q, x) <==> Coming(Absorbed(heap, l, r, drawn), PairQueue(heap, l, r, q), x)
  {
    ComingSame(heap, q, Absorbed(heap, l, r, drawn), PairQueue(heap, l, r, q), x);
  }

  lemma {:induction false} FlushComing(heap: seq<Seg>, q: seq<Task>, q': seq<Task>, x: DocId)
    requires q' == q || q' == q + [NO_TASK]
    ensures Coming(heap, q, x) <==> Coming(heap, q', x)
  {
    ComingSame(heap, q, heap, q', x);
  }

  // -------------------------------------------------------------------- steps of an add

  ghost predicate Awaited(w: World, x: DocId) {
    Coming(w.c.st.heap, Queue(w.c), x)
  }

  /** A document that was added and is no longer in the plain map. */
  ghost predicate Gone(w: World, x: DocId) {
    x in w.added && x !in w.plain
  }

  lemma {:induction false} PutAwaits(r: Rep, t: nat, d: Doc, x: DocId)
    requires RepInv(r, t) && Enabled(r.w, DoPut(d)) && Gone(r.w, x)
    ensures Awaited(r.w, x) <==> Awaited(Next(r.w, t, DoPut(d)), x)
  {
    var st, q := r.w.c.st, Queue(r.w.c);
    PutDocComing(st.heap, LevelSet(st), st.last, q, d, x);
    var c1 := r.w.c.(st := PutDoc(st, d));
    if c1.st.heap[st.last].Size() == t {
      PutDocQueue(r.w.c, d, r.store);
      assert x !in c1.st.heap[st.last].live;
      SealComing(c1.st.heap, LevelSet(c1.st), st.last, st.drawn, q, x);
      assert Queue(SealStep(c1)) == WithLast(q, q[|q| - 1].(inserted := q[|q| - 1].inserted + [st.last]));
    }
  }

  lemma {:induction false} PairAwaits(r: Rep, t: nat, j: nat, x: DocId)
    requires RepInv(r, t) && Enabled(r.w, DoPair(j)) && Gone(r.w, x)
    ensures Awaited(r.w, x) <==> Awaited(Next(r.w, t, DoPair(j)), x)
  {
    var st, i := r.w.c.st, r.w.c.phase.level;
    var l, g := st.levels[i][j].value, st.levels[i][j + 1].value;
    PairListed(st, i, j);
    PairStepQueue(r.w.c, j);
    PairComing(st.heap, l, g, st.drawn, Queue(r.w.c), x);
  }

  /** A step that erases nothing changes nothing about an erased document. */
  lemma {:induction false} StepAwaits(r: Rep, t: nat, m: Step, x: DocId)
    requires RepInv(r, t) && Enabled(r.w, m) && !m.DoErase? && Gone(r.w, x)
    ensures Gone(Next(r.w, t, m), x)
    ensures Awaited(r.w, x) <==> Awaited(Next(r.w, t, m), x)
  {
    if m.DoPut? {
      PutAwaits(r, t, m.d, x);
    } else if m.DoPair? {
      PairAwaits(r, t, m.j, x);
    } else {
      QuietDelivers(r, t, m);
      FlushComing(r.w.c.st.heap, Queue(r.w.c), Queue(Next(r.w, t, m).c), x);
    }
  }

  lemma {:induction false} StepsAwait(r: Rep, t: nat, ms: seq<Step>, w': World, x: DocId)
    requires RepInv(r, t) && Runs(r.w, t, ms, w') && Gone(r.w, x) && forall i :: 0 <= i < |ms| ==> !ms[i].DoErase?
    ensures Gone(w', x) && (Awaited(r.w, x) <==> Awaited(w', x))
  {
    var holds := (w: World) => RepInv(r.(w := w), t) && Gone(w, x) && (Awaited(r.w, x) <==> Awaited(w, x));
    assert r.(w := r.w) == r;
    forall w: World, m: Step | holds(w) && m in ms && StepFrom(t)(w, m).Some? ensures holds(StepFrom(t)(w, m).value) {
      WriteKeeps(r.(w := w), t, m);
      StepAwaits(r.(w := w), t, m, x);
    }
    Traces.Keeps(StepFrom(t), holds, r.w, ms, w');
  }

  lemma {:induction false} ExtendGap(plain: Docs, added: Docs, docs: seq<Doc>, x: DocId)
    requires plain.Keys <= added.Keys && AllNew(added, docs)
    ensures x in Extend(added, docs) && x !in Extend(plain, docs) <==> x in added && x !in plain
    decreases |docs|
  {
    if docs != [] {
      var d := docs[0];
      ExtendGap(plain[d.id := d.vec], added[d.id := d.vec], docs[1..], x);
    }
  }

  // ------------------------------------------------------------------------ one event

  lemma {:induction false} AddStale(r: Rep, t: nat, merging: bool, docs: seq<Doc>, s: State, x: DocId)
    requires RepInv(r, t) && Idle(r.w.c) && AllNew(r.w.added, docs)
    ensures Stale(r.w, s, x) <==> Stale(AddTo(r.w, t, merging, docs), s, x)
  {
    var w' := AddTo(r.w, t, merging, docs);
    ExtendGap(r.w.plain, r.w.added, docs, x);
    assert Gone(r.w, x) <==> Gone(w', x);
    if Gone(r.w, x) {
      var ms := AddRuns(r.w, t, merging, docs);
      StepsAwait(r, t, ms, w', x);
    }
  }

  lemma {:induction false} HeadComing(heap: seq<Seg>, q: seq<Task>, x: DocId)
    requires q != []
    ensures Coming(heap, q, x) <==> (exists o :: o in q[0].inserted && Holds(heap, o, x)) || Coming(heap, q[1..], x)
  {
    if Coming(heap, q, x) {
      var p, o :| 0 <= p < |q| && o in q[p].inserted && Holds(heap, o, x);
      if p > 0 {
        assert o in q[1..][p - 1].inserted;
      }
    }
    if Coming(heap, q[1..], x) {
      var p, o :| 0 <= p < |q[1..]| && o in q[1..][p].inserted && Holds(heap, o, x);
      assert o in q[p + 1].inserted;
    }
  }

  /** What a searcher has after a task is what it had and what the announced objects hold. */
  lemma {:induction false} TaskBrings(r: Rep, t: nat, i: nat, x: DocId)
    requires RepInv(r, t) && Idle(r.w.c) && r.w.c.outbox != [] && i < |r.searchers| && CanRun(r)
    ensures Has(RunTask(r).searchers[i], x) <==>
      Has(r.searchers[i], x) || exists o :: o in r.w.c.outbox[0].inserted && Holds(r.w.c.st.heap, o, x)
  {
    var heap, hs, store := r.w.c.st.heap, r.w.c.outbox[0].inserted, RunTask(r).store;
    var ids := NameList(heap, hs);
    FetchAllHas(r.searchers[i], store, ids, x);
    forall h | h in hs ensures heap[h].id in ids && heap[h].id in store && store[heap[h].id] == heap[h] {
      AnnouncedIsStored(r, t, h);
      var k :| 0 <= k < |hs| && hs[k] == h;
      assert ids[k] == heap[h].id;
    }
    if id :| id in ids && id in store && x in store[id].live {
      var k :| 0 <= k < |ids| && ids[k] == id;
      assert hs[k] in hs && Holds(heap, hs[k], x);
    }
    if o :| o in hs && Holds(heap, o, x) {
      assert heap[o].id in ids && x in store[heap[o].id].live;
    }
  }

  lemma {:induction false} TaskStale(r: Rep, t: nat, i: nat, x: DocId)
    requires RepInv(r, t) && Idle(r.w.c) && r.w.c.outbox != [] && i < |r.searchers|
    ensures CanRun(r) && |RunTask(r).searchers| == |r.searchers|
    ensures Stale(r.w, r.searchers[i], x) <==> Stale(RunTask(r).w, RunTask(r).searchers[i], x)
  {
    TaskCanRun(r, t);
    TaskBrings(r, t, i, x);
    HeadComing(r.w.c.st.heap, Queue(r.w.c), x);
  }

  /** For a searcher that was fed, having a document is serving it. */
  lemma {:induction false} HasIsServed(s: State, open: set<DocId>, added: Docs, x: DocId)
    requires Fed(s, open, added)
    ensures Has(s, x) <==> Served(s, x)
    ensures Has(s, x) ==> x in added
  {
    if Has(s, x) {
      var h :| h in s.segments && h < |s.heap| && x in s.heap[h].live;
      assert Reads(s, h) && Holds(s.heap, h, x);
      assert Serves(s, x, s.heap[h].live[x]);
    }
    if Served(s, x) {
      var v :| Serves(s, x, v);
      var h: nat :| Reads(s, h) && Holds(s.heap, h, x) && s.heap[h].live[x] == v;
      assert h in s.segments;
    }
  }

  /** After an erase, what the queue will bring of a named document is what was held aside. */
  lemma {:induction false} ErasedComing(c: Config, xs: set<DocId>, x: DocId)
    requires c.cur == NO_TASK && x in xs
    ensures Coming(Erase(c, xs).st.heap, Queue(c), x) <==> HeldAside(c, x)
  {
    var heap', q := Erase(c, xs).st.heap, Queue(c);
    if Coming(heap', q, x) {
      var p, o :| 0 <= p < |q| && o in q[p].inserted && Holds(heap', o, x);
      assert p < |c.outbox| && o in c.outbox[p].inserted;
    }
    if HeldAside(c, x) {
      var p, o :| 0 <= p < |c.outbox| && o in c.outbox[p].inserted && o !in c.st.segments && o != c.st.last &&
                  Holds(c.st.heap, o, x);
      assert o in q[p].inserted && Holds(heap', o, x);
    }
  }

  /** Nothing changes for a document the erase does not name. */
  lemma {:induction false} SparedComing(c: Config, xs: set<DocId>, x: DocId)
    requires x !in xs
    ensures Coming(c.st.heap, Queue(c), x) <==> Coming(Erase(c, xs).st.heap, Queue(c), x)
  {
    ComingSame(c.st.heap, Queue(c), Erase(c, xs).st.heap, Queue(c), x);
  }

  lemma {:induction false} AsideIsComing(c: Config, x: DocId)
    requires HeldAside(c, x)
    ensures Coming(c.st.heap, Queue(c), x)
  {
    var p, o :| 0 <= p < |c.outbox| && o in c.outbox[p].inserted && o !in c.st.segments && o != c.st.last &&
                Holds(c.st.heap, o, x);
    assert o in Queue(c)[p].inserted;
  }

  /** A document that is not in the plain map is live only where no erase reaches. */
  lemma {:induction false} GoneIsAside(c: Config, plain: Docs, x: DocId)
    requires c.cur == NO_TASK && Faithful(c.st.heap, c.st.segments, c.st.last, plain) && x !in plain
    ensures Coming(c.st.heap, Queue(c), x) <==> HeldAside(c, x)
  {
    if Coming(c.st.heap, Queue(c), x) {
      var p, o :| 0 <= p < |Queue(c)| && o in Queue(c)[p].inserted && Holds(c.st.heap, o, x);
      assert p < |c.outbox| && o in c.outbox[p].inserted;
    }
    if HeldAside(c, x) {
      AsideIsComing(c, x);
    }
  }

  lemma {:induction false} AsideWasAdded(heap: seq<Seg>, q: seq<Task>, added: Docs, x: DocId)
    requires Owned(heap, added) && Coming(heap, q, x)
    ensures x in added
  {
    var p, o :| 0 <= p < |q| && o in q[p].inserted && Holds(heap, o, x);
  }

  /** An erase makes a document stale exactly when it names it and the searcher has it or it is held aside. */
  lemma {:induction false} EraseStale(w: World, s: State, xs: set<DocId>, x: DocId)
    requires w.c.cur == NO_TASK && Faithful(w.c.st.heap, w.c.st.segments, w.c.st.last, w.plain)
    requires Owned(w.c.st.heap, w.added) && SubMap(w.plain, w.added) && (Has(s, x) ==> x in w.added)
    ensures
      var w' := World(Erase(w.c, xs), w.plain - xs, w.added);
      Stale(w', s, x) <==> Stale(w, s, x) || (x in xs && (Has(s, x) || HeldAside(w.c, x)))
  {
    if x in xs {
      NamedStale(w, s, xs, x);
    } else {
      SparedComing(w.c, xs, x);
    }
  }

  lemma {:induction false} NamedStale(w: World, s: State, xs: set<DocId>, x: DocId)
    requires w.c.cur == NO_TASK && Faithful(w.c.st.heap, w.c.st.segments, w.c.st.last, w.plain)
    requires Owned(w.c.st.heap, w.added) && (Has(s, x) ==> x in w.added) && x in xs
    ensures
      var w' := World(Erase(w.c, xs), w.plain - xs, w.added);
      Stale(w', s, x) <==> Stale(w, s, x) || Has(s, x) || HeldAside(w.c, x)
  {
    ErasedComing(w.c, xs, x);
    if HeldAside(w.c, x) {
      AsideIsComing(w.c, x);
      AsideWasAdded(w.c.st.heap, Queue(w.c), w.added, x);
    }
    if x !in w.plain {
      GoneIsAside(w.c, w.plain, x);
    }
  }

  /** One event leaves a searcher without stale documents exactly when it had none and an erase reaches all it names. */
  lemma {:induction false} EventStale(r: Rep, t: nat, merging: bool, e: Event, i: nat)
    requires RepInv(r, t) && Idle(r.w.c) && LegalEvents(r.w.added, [e]) && i < |r.searchers|
    ensures
      var r' := Happens(r, t, merging, e);
      && |r'.searchers| == |r.searchers|
      && (NoneStale(r'.w, r'.searchers[i]) <==> NoneStale(r.w, r.searchers[i]) && ReachedBy(r, e, i))
  {
    match e
    case Call(AddOp(docs)) =>
      assert LegalEvents(r.w.added, [e]) ==> AllNew(r.w.added, docs);
      forall x ensures Stale(r.w, r.searchers[i], x) <==> Stale(AddTo(r.w, t, merging, docs), r.searchers[i], x) {
        AddStale(r, t, merging, docs, r.searchers[i], x);
      }
    case Call(EraseOp(xs)) =>
      EraseEventStale(r, t, xs, i);
    case TaskRuns =>
      if r.w.c.outbox != [] {
        forall x
          ensures CanRun(r) && |RunTask(r).searchers| == |r.searchers|
          ensures Stale(r.w, r.searchers[i], x) <==> Stale(RunTask(r).w, RunTask(r).searchers[i], x)
        {
          TaskStale(r, t, i, x);
        }
      }
  }

  lemma {:induction false} EraseEventStale(r: Rep, t: nat, xs: set<DocId>, i: nat)
    requires RepInv(r, t) && Idle(r.w.c) && i < |r.searchers|
    ensures
      var w' := World(Erase(r.w.c, xs), r.w.plain - xs, r.w.added);
      NoneStale(w', r.searchers[i]) <==> NoneStale(r.w, r.searchers[i]) && ReachedBy(r, Call(EraseOp(xs)), i)
  {
    var s, w' := r.searchers[i], World(Erase(r.w.c, xs), r.w.plain - xs, r.w.added);
    forall x
      ensures Stale(w', s, x) <==> Stale(r.w, s, x) || (x in xs && (Served(s, x) || HeldAside(r.w.c, x)))
    {
      HasIsServed(s, r.w.c.st.heap[r.w.c.st.last].known, r.w.added, x);
      EraseStale(r.w, s, xs, x);
    }
  }

  // ------------------------------------------------------------------------- whole runs

  lemma {:induction false} EventsStale(r: Rep, t: nat, merging: bool, es: seq<Event>, i: nat, end: Rep)
    requires RepInv(r, t) && Idle(r.w.c) && LegalEvents(r.w.added, es) && i < |r.searchers|
    requires HappenAll(r, t, merging, es) == end
    ensures |end.searchers| == |r.searchers|
    ensures NoneStale(end.w, end.searchers[i]) <==>
      NoneStale(r.w, r.searchers[i]) && ErasesReach(r, t, merging, es, i)
    decreases |es|
  {
    if es != [] {
      var r' := Happens(r, t, merging, es[0]);
      FirstEvent(r, t, merging, es, i, r');
      EventsStale(r', t, merging, es[1..], i, end);
    }
  }

  lemma {:induction false} FirstEvent(r: Rep, t: nat, merging: bool, es: seq<Event>, i: nat, r': Rep)
    requires RepInv(r, t) && Idle(r.w.c) && es != [] && LegalEvents(r.w.added, es) && i < |r.searchers|
    requires r' == Happens(r, t, merging, es[0])
    ensures RepInv(r', t) && Idle(r'.w.c) && LegalEvents(r'.w.added, es[1..]) && |r'.searchers| == |r.searchers|
    ensures NoneStale(r'.w, r'.searchers[i]) <==> NoneStale(r.w, r.searchers[i]) && ReachedBy(r, es[0], i)
  {
    HeadEvent(r.w.added, es);
    EventKeeps(r, t, merging, es[0]);
    EventStale(r, t, merging, es[0], i);
  }

  /** Drained, a searcher serves exactly the live sealed documents if and only if it has no stale one. */
  lemma {:induction false} SyncIffNoneStale(r: Rep, t: nat, i: nat)
    requires RepInv(r, t) && Drained(r) && i < |r.searchers|
    ensures InSync(r.searchers[i], r.w) <==> NoneStale(r.w, r.searchers[i])
  {
    var s, w, open := r.searchers[i], r.w, r.w.c.st.heap[r.w.c.st.last].known;
    assert Queue(w.c) == [NO_TASK];
    forall x ensures !Coming(w.c.st.heap, Queue(w.c), x) && (Has(s, x) <==> Served(s, x)) {
      HasIsServed(s, open, w.added, x);
    }
    forall x, v | Serves(s, x, v) ensures x in SealedDocs(w.c.st, w.added) && SealedDocs(w.c.st, w.added)[x] == v {
      SearcherInventsNothing(r, t, i, x, v);
    }
    forall x | x in SealedLive(w) ensures Serves(s, x, SealedLive(w)[x]) {
      SearcherLosesNothing(r, t, i, x);
    }
    SyncByServing(s, w);
  }

  lemma {:induction false} SyncByServing(s: State, w: World)
    requires w.c.st.last < |w.c.st.heap| && SubMap(w.plain, w.added)
    requires forall x :: !Coming(w.c.st.heap, Queue(w.c), x) && (Has(s, x) <==> Served(s, x))
    requires forall x, v :: Serves(s, x, v) ==> x in SealedDocs(w.c.st, w.added) && SealedDocs(w.c.st, w.added)[x] == v
    requires forall x :: x in SealedLive(w) ==> Serves(s, x, SealedLive(w)[x])
    ensures InSync(s, w) <==> NoneStale(w, s)
  {
    if NoneStale(w, s) {
      forall x, v | Serves(s, x, v) ensures x in SealedLive(w) && SealedLive(w)[x] == v {
        assert Served(s, x) && !Stale(w, s, x);
      }
    }
    if InSync(s, w) {
      forall x ensures !Stale(w, s, x) {
        if Served(s, x) {
          var v :| Serves(s, x, v);
          assert x in SealedLive(w);
        }
      }
    }
  }

  /** For every interleaving that ends with the queue empty: searcher i serves exactly the live sealed documents if and
      only if every erase of the run found none of its documents at the searcher or held aside by a queued task. */
  lemma {:induction false} InSyncIffErasesReach(n: nat, t: nat, merging: bool, es: seq<Event>, i: nat)
    requires t >= 1 && LegalEvents(map[], es) && i < n
    ensures
      var r := HappenAll(Fresh(n), t, merging, es);
      && |r.searchers| == n
      && (Drained(r) ==> (InSync(r.searchers[i], r.w) <==> ErasesReach(Fresh(n), t, merging, es, i)))
  {
    var r := HappenAll(Fresh(n), t, merging, es);
    FreshInv(n, t);
    EventsKeep(Fresh(n), t, merging, es);
    EventsStale(Fresh(n), t, merging, es, i, r);
    assert NoneStale(Fresh(n).w, Fresh(n).searchers[i]);
    if Drained(r) {
      SyncIffNoneStale(r, t, i);
    }
  }
}
