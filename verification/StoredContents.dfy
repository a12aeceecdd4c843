/** What the stored objects hold under every interleaving, erases included. */
module StoredContents {
  import Traces
  import opened Prelude
  import opened IndexModel
  import opened IndexInvariant
  import opened IndexSteps
  import opened IndexRuns
  import opened TaskQueue
  import opened Replication
  import opened ReplicationRuns
  import opened ReplicationTheorems

  /** A stored object holds what the segment that bears its name holds now, and nothing the segment never had. */
  ghost predicate Holding(stored: Seg, now: Seg) {
    SubMap(now.live, stored.live) && stored.live.Keys <= now.known
  }

  ghost predicate StoreHolds(heap: seq<Seg>, store: Store) {
    forall x, h :: x in store && 0 <= h < |heap| && heap[h].id == x ==> Holding(store[x], heap[h])
  }

  // ----------------------------------------------------------------------- writer steps

  lemma {:induction false} PutHolds(r: Rep, t: nat, d: Doc)
    requires RepInv(r, t) && Enabled(r.w, DoPut(d)) && StoreHolds(r.w.c.st.heap, r.store)
    ensures StoreHolds(Put(r.w.c, t, d).st.heap, r.store)
  {
    LastUnstored(r, t);
    LastNextUnstored(r, t);
  }

  /** The name the next segment will draw has never been stored. */
  lemma {:induction false} LastNextUnstored(r: Rep, t: nat)
    requires RepInv(r, t)
    ensures r.w.c.st.drawn !in r.store
  {
  }

  lemma {:induction false} PairHolds(r: Rep, t: nat, j: nat)
    requires RepInv(r, t) && Enabled(r.w, DoPair(j)) && StoreHolds(r.w.c.st.heap, r.store)
    ensures StoreHolds(PairStep(r.w.c, j).st.heap, r.store)
  {
    LastNextUnstored(r, t);
  }

  lemma {:induction false} EraseHolds(st: State, xs: set<DocId>, store: Store)
    requires StoreHolds(st.heap, store)
    ensures StoreHolds(EraseEverywhere(st, xs).heap, store)
  {
  }

  lemma {:induction false} WriteHolds(r: Rep, t: nat, m: Step)
    requires RepInv(r, t) && Enabled(r.w, m) && StoreHolds(r.w.c.st.heap, r.store)
    ensures StoreHolds(Next(r.w, t, m).c.st.heap, r.store)
  {
    match m
    case DoPut(d) => PutHolds(r, t, d);
    case DoFlushAdd =>
    case DoBegin =>
    case DoPair(j) => PairHolds(r, t, j);
    case DoFlushPass => FlushPassQueue(r.w.c);
    case DoCompact =>
    case DoErase(xs) => EraseHolds(r.w.c.st, xs, r.store);
  }

  lemma {:induction false} WritesHold(r: Rep, t: nat, ms: seq<Step>, w': World)
    requires RepInv(r, t) && Runs(r.w, t, ms, w') && StoreHolds(r.w.c.st.heap, r.store)
    ensures StoreHolds(w'.c.st.heap, r.store)
  {
    var holds := (w: World) => RepInv(r.(w := w), t) && StoreHolds(w.c.st.heap, r.store);
    assert r.(w := r.w) == r;
    forall w: World, m: Step | holds(w) && m in ms && StepFrom(t)(w, m).Some? ensures holds(StepFrom(t)(w, m).value) {
      WriteKeeps(r.(w := w), t, m);
      WriteHolds(r.(w := w), t, m);
    }
    Traces.Keeps(StepFrom(t), holds, r.w, ms, w');
  }

  // ------------------------------------------------------------------------------ tasks

  lemma {:induction false} StoreAfterHolds(store: Store, heap: seq<Seg>, drawn: nat, added: Docs, t: Task)
    requires Names(heap, drawn) && Owned(heap, added) && StoreHolds(heap, store)
    requires forall h :: h in t.inserted ==> h < |heap|
    ensures StoreHolds(heap, StoreAfter(store, heap, t))
  {
    var store' := StoreAfter(store, heap, t);
    forall x, h | x in store' && 0 <= h < |heap| && heap[h].id == x ensures Holding(store'[x], heap[h]) {
      PutObjectsEffect(store, heap, drawn, t.inserted, x);
      if x in NamesOf(heap, t.inserted) {
        var g :| g in t.inserted && heap[g].id == x;
        assert g == h && store'[x] == heap[h];
      }
    }
  }

  lemma {:induction false} TaskHolds(r: Rep, t: nat)
    requires RepInv(r, t) && Idle(r.w.c) && r.w.c.outbox != [] && StoreHolds(r.w.c.st.heap, r.store)
    ensures CanRun(r) && StoreHolds(RunTask(r).w.c.st.heap, RunTask(r).store)
  {
    TaskCanRun(r, t);
    StoreAfterHolds(r.store, r.w.c.st.heap, r.w.c.st.drawn, r.w.added, r.w.c.outbox[0]);
  }

  // --------------------------------------------------------------------- interleavings

  lemma {:induction false} EventHolds(r: Rep, t: nat, merging: bool, e: Event)
    requires RepInv(r, t) && Idle(r.w.c) && LegalEvents(r.w.added, [e]) && StoreHolds(r.w.c.st.heap, r.store)
    ensures
      var r' := Happens(r, t, merging, e);
      StoreHolds(r'.w.c.st.heap, r'.store)
  {
    match e
    case Call(AddOp(docs)) =>
      assert LegalEvents(r.w.added, [e]) ==> AllNew(r.w.added, docs);
      var ms := AddRuns(r.w, t, merging, docs);
      WritesHold(r, t, ms, AddTo(r.w, t, merging, docs));
    case Call(EraseOp(xs)) => EraseHolds(r.w.c.st, xs, r.store);
    case TaskRuns =>
      if r.w.c.outbox != [] {
        TaskHolds(r, t);
      }
  }

  lemma {:induction false} EventsHold(r: Rep, t: nat, merging: bool, es: seq<Event>, end: Rep)
    requires RepInv(r, t) && Idle(r.w.c) && LegalEvents(r.w.added, es) && StoreHolds(r.w.c.st.heap, r.store)
    requires HappenAll(r, t, merging, es) == end
    ensures StoreHolds(end.w.c.st.heap, end.store)
    decreases |es|
  {
    if es != [] {
      HeadEvent(r.w.added, es);
      EventKeeps(r, t, merging, es[0]);
      EventHolds(r, t, merging, es[0]);
      EventsHold(Happens(r, t, merging, es[0]), t, merging, es[1..], end);
    }
  }

  // --------------------------------------------------------------------------- drained

  /** What of an object was not erased. */
  ghost function Surviving(live: Docs, plain: Docs): Docs {
    map x | x in live && x in plain :: live[x]
  }

  /** A document of a segment of the levels that is still there is live in that segment. */
  lemma {:induction false} LiveWhereKnown(heap: seq<Seg>, lv: set<nat>, last: nat, plain: Docs, added: Docs, h: nat,
      x: DocId)
    requires last < |heap| && Owned(heap, added) && Apart(heap, lv) && LastApart(heap, last) && last !in lv
    requires Complete(heap, lv, last, plain) && h in lv && h < |heap| && x in heap[h].known && x in plain
    ensures x in heap[h].live
  {
  }

  lemma {:induction false} SurvivingOf(seg: Seg, stored: Seg, plain: Docs)
    requires Holding(stored, seg) && SubMap(seg.live, plain)
    requires forall x :: x in seg.known && x in plain ==> x in seg.live
    ensures seg.live == Surviving(stored.live, plain)
    ensures seg.live == stored.live <==> stored.live.Keys <= plain.Keys
  {
  }

  lemma {:induction false} SegmentIsSurviving(r: Rep, t: nat, h: nat)
    requires RepInv(r, t) && h in LevelSet(r.w.c.st) && h < |r.w.c.st.heap| && r.w.c.st.heap[h].id in r.store
    requires StoreHolds(r.w.c.st.heap, r.store)
    ensures
      var seg := r.w.c.st.heap[h];
      && seg.live == Surviving(r.store[seg.id].live, r.w.plain)
      && (seg.live == r.store[seg.id].live <==> r.store[seg.id].live.Keys <= r.w.plain.Keys)
  {
    var st, seg := r.w.c.st, r.w.c.st.heap[h];
    forall x | x in seg.known && x in r.w.plain ensures x in seg.live {
      LiveWhereKnown(st.heap, LevelSet(st), st.last, r.w.plain, r.w.added, h, x);
    }
    SurvivingOf(seg, r.store[seg.id], r.w.plain);
  }

  /** Every interleaving: once the queue is empty, each segment of the levels is its stored object without the documents
      erased since it was stored, and the two are equal if and only if no document of the object was erased. */
  lemma {:induction false} DrainedObjectsHold(n: nat, t: nat, merging: bool, es: seq<Event>, h: nat)
    requires t >= 1 && LegalEvents(map[], es)
    ensures
      var r := HappenAll(Fresh(n), t, merging, es);
      Drained(r) && h in LevelSet(r.w.c.st) ==>
        && h < |r.w.c.st.heap| && r.w.c.st.heap[h].id in r.store
        && var seg, stored := r.w.c.st.heap[h], r.store[r.w.c.st.heap[h].id];
           && seg.live == Surviving(stored.live, r.w.plain)
           && (seg.live == stored.live <==> stored.live.Keys <= r.w.plain.Keys)
  {
    var r := HappenAll(Fresh(n), t, merging, es);
    FreshInv(n, t);
    EventsKeep(Fresh(n), t, merging, es);
    EventsHold(Fresh(n), t, merging, es, r);
    if Drained(r) && h in LevelSet(r.w.c.st) {
      DrainedStore(r, t);
      SegmentIsSurviving(r, t, h);
    }
  }
}
