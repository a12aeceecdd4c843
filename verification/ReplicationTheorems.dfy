/** What replication guarantees over every interleaving of calls and tasks. */
module ReplicationTheorems {
  import Traces
  import opened Prelude
  import opened Levels
  import opened IndexModel
  import opened IndexInvariant
  import opened IndexSteps
  import opened IndexRuns
  import opened LevelSizes
  import opened TaskQueue
  import opened Replication
  import opened ReplicationRuns

  // ------------------------------------------------------- contents of the store without erases

  /** A stored object equals the segment object that bears its name now. */
  ghost predicate ExactStore(heap: seq<Seg>, store: Store) {
    forall x, h :: x in store && 0 <= h < |heap| && heap[h].id == x ==> store[x] == heap[h]
  }

  ghost predicate Exact(r: Rep) {
    ExactStore(r.w.c.st.heap, r.store) && r.w.plain == r.w.added
  }

  /** The open segment has never been stored: its name is neither in the levels nor due for erasure. */
  lemma {:induction false} LastUnstored(r: Rep, t: nat)
    requires RepInv(r, t)
    ensures r.w.c.st.heap[r.w.c.st.last].id !in r.store
  {
    var st, q := r.w.c.st, Queue(r.w.c);
    var x := st.heap[st.last].id;
    forall h | h in LevelSet(st) && h < |st.heap| ensures st.heap[h].id != x {
      assert h != st.last;
    }
    assert x !in NamesIn(st.heap, LevelSet(st));
    assert forall i :: 0 <= i < |q| ==> x !in q[i].erased;
  }

  lemma {:induction false} PutKeepsExact(r: Rep, t: nat, d: Doc)
    requires RepInv(r, t) && Enabled(r.w, DoPut(d)) && Exact(r)
    ensures Exact(Written(r, t, DoPut(d)))
  {
    LastUnstored(r, t);
  }

  lemma {:induction false} PairKeepsExact(r: Rep, t: nat, j: nat)
    requires RepInv(r, t) && Enabled(r.w, DoPair(j)) && Exact(r)
    ensures Exact(Written(r, t, DoPair(j)))
  {
  }

  lemma {:induction false} WriteKeepsExact(r: Rep, t: nat, m: Step)
    requires RepInv(r, t) && Enabled(r.w, m) && Exact(r) && !m.DoErase?
    ensures Exact(Written(r, t, m))
  {
    match m
    case DoPut(d) => PutKeepsExact(r, t, d);
    case DoPair(j) => PairKeepsExact(r, t, j);
    case DoFlushAdd =>
    case DoBegin =>
    case DoFlushPass => FlushPassQueue(r.w.c);
    case DoCompact =>
  }

  lemma {:induction false} WritesKeepExact(r: Rep, t: nat, ms: seq<Step>, w': World)
    requires RepInv(r, t) && Runs(r.w, t, ms, w') && Exact(r) && forall i :: 0 <= i < |ms| ==> !ms[i].DoErase?
    ensures Exact(r.(w := w'))
  {
    var holds := (w: World) => RepInv(r.(w := w), t) && Exact(r.(w := w));
    assert r.(w := r.w) == r;
    forall w: World, m: Step | holds(w) && m in ms && StepFrom(t)(w, m).Some? ensures holds(StepFrom(t)(w, m).value) {
      WriteKeeps(r.(w := w), t, m);
      WriteKeepsExact(r.(w := w), t, m);
    }
    Traces.Keeps(StepFrom(t), holds, r.w, ms, w');
  }

  lemma {:induction false} TaskKeepsExact(r: Rep, t: nat)
    requires RepInv(r, t) && Idle(r.w.c) && r.w.c.outbox != [] && Exact(r)
    ensures CanRun(r) && Exact(RunTask(r))
  {
    TaskCanRun(r, t);
    var st, task := r.w.c.st, r.w.c.outbox[0];
    forall x, h | x in RunTask(r).store && 0 <= h < |st.heap| && st.heap[h].id == x
      ensures RunTask(r).store[x] == st.heap[h]
    {
      PutObjectsEffect(r.store, st.heap, st.drawn, task.inserted, x);
      if x in NamesOf(st.heap, task.inserted) {
        var g :| g in task.inserted && st.heap[g].id == x;
        assert g == h;
      }
    }
  }

  // --------------------------------------------------------------------- interleavings

  datatype Event = Call(op: Op) | TaskRuns

  ghost function Happens(r: Rep, t: nat, merging: bool, e: Event): (r': Rep)
    requires Shape(r.w.c)
    ensures Shape(r'.w.c)
  {
    match e
    case Call(AddOp(docs)) => AddKeepsShape(r.w.c, t, merging, docs); r.(w := AddTo(r.w, t, merging, docs))
    case Call(EraseOp(xs)) => r.(w := World(Erase(r.w.c, xs), r.w.plain - xs, r.w.added))
    case TaskRuns => if CanRun(r) then RunTask(r) else r
  }

  ghost predicate LegalEvents(added: Docs, es: seq<Event>)
    decreases |es|
  {
    es == [] ||
    match es[0]
    case Call(AddOp(docs)) => AllNew(added, docs) && LegalEvents(Extend(added, docs), es[1..])
    case _ => LegalEvents(added, es[1..])
  }

  ghost predicate NoErase(es: seq<Event>) {
    forall i :: 0 <= i < |es| ==> es[i] == TaskRuns || es[i].op.AddOp?
  }

  lemma {:induction false} EventKeeps(r: Rep, t: nat, merging: bool, e: Event)
    requires RepInv(r, t) && Idle(r.w.c) && LegalEvents(r.w.added, [e])
    ensures RepInv(Happens(r, t, merging, e), t) && Idle(Happens(r, t, merging, e).w.c)
    ensures Exact(r) && NoErase([e]) ==> Exact(Happens(r, t, merging, e))
  {
    match e
    case Call(AddOp(docs)) =>
      assert LegalEvents(r.w.added, [e]) ==> AllNew(r.w.added, docs);
      var ms := AddRuns(r.w, t, merging, docs);
      WritesKeep(r, t, ms, AddTo(r.w, t, merging, docs));
      if Exact(r) {
        WritesKeepExact(r, t, ms, AddTo(r.w, t, merging, docs));
      }
    case Call(EraseOp(xs)) =>
      WriteKeeps(r, t, DoErase(xs));
      assert !NoErase([e]) by {
        assert [e][0] == e;
      }
    case TaskRuns =>
      if r.w.c.outbox != [] {
        TaskKeeps(r, t);
        if Exact(r) {
          TaskKeepsExact(r, t);
        }
      }
  }

  ghost function HappenAll(r: Rep, t: nat, merging: bool, es: seq<Event>): (r': Rep)
    requires Shape(r.w.c)
    ensures Shape(r'.w.c)
    decreases |es|
  {
    if es == [] then r else HappenAll(Happens(r, t, merging, es[0]), t, merging, es[1..])
  }

  lemma {:induction false} HeadEvent(added: Docs, es: seq<Event>)
    requires es != [] && LegalEvents(added, es)
    ensures LegalEvents(added, [es[0]])
    ensures NoErase(es) ==> NoErase([es[0]]) && NoErase(es[1..])
  {
    assert [es[0]][1..] == [];
  }

  lemma {:induction false} EventsKeep(r: Rep, t: nat, merging: bool, es: seq<Event>)
    requires RepInv(r, t) && Idle(r.w.c) && LegalEvents(r.w.added, es)
    ensures RepInv(HappenAll(r, t, merging, es), t) && Idle(HappenAll(r, t, merging, es).w.c)
    ensures Exact(r) && NoErase(es) ==> Exact(HappenAll(r, t, merging, es))
    decreases |es|
  {
    if es != [] {
      HeadEvent(r.w.added, es);
      EventKeeps(r, t, merging, es[0]);
      EventsKeep(Happens(r, t, merging, es[0]), t, merging, es[1..]);
    }
  }

  /** A writer and n searchers before anything happened. */
  ghost function Fresh(n: nat): Rep {
    Rep(EMPTY_WORLD, map[], seq(n, i => START))
  }

  lemma {:induction false} FreshInv(n: nat, t: nat)
    requires t >= 1
    ensures RepInv(Fresh(n), t) && Idle(Fresh(n).w.c) && Exact(Fresh(n))
  {
    EmptyInv(t);
    assert LevelSet(START) == {};
    assert Queue(Begin()) == [NO_TASK];
  }

  // ------------------------------------------------------------------------- drained

  ghost predicate Drained(r: Rep) {
    Idle(r.w.c) && r.w.c.outbox == []
  }

  /** The live documents the writer has sealed. */
  ghost function SealedLive(w: World): Docs
    requires w.c.st.last < |w.c.st.heap|
  {
    w.plain - w.c.st.heap[w.c.st.last].known
  }

  lemma {:induction false} NothingQueued(heap: seq<Seg>, lv: set<nat>, drawn: nat, store: Store)
    requires Reaches(heap, lv, [NO_TASK], store) && Leaves(heap, lv, drawn, [NO_TASK], store)
    ensures store.Keys == NamesIn(heap, lv)
  {
    forall x | x in store ensures x in NamesIn(heap, lv) {
      assert !RetiredFrom([NO_TASK], 0, x);
    }
    forall x | x in NamesIn(heap, lv) ensures x in store {
      var h :| h in lv && h < |heap| && heap[h].id == x;
      assert !Pending([NO_TASK], h);
    }
  }

  /** Drained, the store holds one object per segment of the levels, under its current name. */
  lemma {:induction false} DrainedStore(r: Rep, t: nat)
    requires RepInv(r, t) && Drained(r)
    ensures r.store.Keys == LevelNames(r.w.c.st)
    ensures |r.store| == r.w.c.st.counter
  {
    var st := r.w.c.st;
    assert Queue(r.w.c) == [NO_TASK];
    NothingQueued(st.heap, LevelSet(st), st.drawn, r.store);
    LevelNamesAre(st.heap, LevelSet(st), Bag(st.levels), st.drawn, r.store);
  }

  /** One name per segment of the levels. */
  lemma {:induction false} LevelNamesAre(heap: seq<Seg>, lv: set<nat>, bag: multiset<nat>, drawn: nat, store: Store)
    requires Names(heap, drawn) && store.Keys == NamesIn(heap, lv) && forall h :: h in lv ==> h < |heap|
    requires (forall h :: h in lv <==> h in bag) && forall h :: h in bag ==> bag[h] == 1
    ensures |store| == |bag|
  {
    LevelNamesCount(heap, lv, drawn);
    SetOfBag(bag, lv);
    assert |store.Keys| == |store|;
  }

  lemma {:induction false} OneMoreName(heap: seq<Seg>, hs: set<nat>, h: nat, drawn: nat)
    requires Names(heap, drawn) && h in hs && forall g :: g in hs ==> g < |heap|
    ensures NamesIn(heap, hs) == NamesIn(heap, hs - {h}) + {heap[h].id}
    ensures heap[h].id !in NamesIn(heap, hs - {h})
  {
  }

  lemma {:induction false} LevelNamesCount(heap: seq<Seg>, hs: set<nat>, drawn: nat)
    requires Names(heap, drawn) && forall h :: h in hs ==> h < |heap|
    ensures |NamesIn(heap, hs)| == |hs|
  {
    if hs == {} {
      assert NamesIn(heap, hs) == {};
    } else {
      var h :| h in hs;
      LevelNamesCount(heap, hs - {h}, drawn);
      OneMoreName(heap, hs, h, drawn);
    }
  }

  lemma {:induction false} SetOfBag(b: multiset<nat>, s: set<nat>)
    requires (forall h :: h in s <==> h in b) && forall h :: h in b ==> b[h] == 1
    ensures |s| == |b|
    decreases |s|
  {
    if s == {} {
      assert b == multiset{};
    } else {
      var h :| h in s;
      SetOfBag(b - multiset{h}, s - {h});
      assert b == (b - multiset{h}) + multiset{h};
    }
  }

  /** Drained and without erases, every stored object has the contents of its segment. */
  lemma {:induction false} DrainedContents(r: Rep, t: nat, h: nat)
    requires RepInv(r, t) && Drained(r) && Exact(r) && h in LevelSet(r.w.c.st)
    ensures r.w.c.st.heap[h].id in r.store && r.store[r.w.c.st.heap[h].id] == r.w.c.st.heap[h]
  {
    DrainedStore(r, t);
  }

  /** At any moment a searcher serves only documents the writer has sealed. */
  lemma {:induction false} SearcherInventsNothing(r: Rep, t: nat, i: nat, x: DocId, v: Vector)
    requires RepInv(r, t) && i < |r.searchers| && Serves(r.searchers[i], x, v)
    ensures x in SealedDocs(r.w.c.st, r.w.added) && SealedDocs(r.w.c.st, r.w.added)[x] == v
  {
    var s := r.searchers[i];
    var h: nat :| Reads(s, h) && Holds(s.heap, h, x) && s.heap[h].live[x] == v;
    assert h in s.segments;
  }

  /** With nothing on its way, a searcher that catches up has what the levels hold. */
  lemma {:induction false} CaughtUp(s: State, heap: seq<Seg>, lv: set<nat>, open: set<DocId>, added: Docs, o: nat,
      x: DocId)
    requires CatchesUp(s, heap, lv, [NO_TASK]) && Fed(s, open, added) && o in lv && Holds(heap, o, x)
    ensures x in added && Serves(s, x, added[x])
  {
    assert Has(s, x);
    var h :| h in s.segments && h < |s.heap| && x in s.heap[h].live;
    assert Reads(s, h) && Holds(s.heap, h, x);
  }

  /** Drained, a searcher serves every live document the writer has sealed. */
  lemma {:induction false} SearcherLosesNothing(r: Rep, t: nat, i: nat, x: DocId)
    requires RepInv(r, t) && Drained(r) && i < |r.searchers| && x in SealedLive(r.w)
    ensures Serves(r.searchers[i], x, SealedLive(r.w)[x])
  {
    var st := r.w.c.st;
    var o := SealedHolder(st.heap, LevelSet(st), st.last, r.w.plain, r.w.added, x);
    assert Queue(r.w.c) == [NO_TASK];
    CaughtUp(r.searchers[i], st.heap, LevelSet(st), st.heap[st.last].known, r.w.added, o, x);
  }

  /** A live document outside the open segment is live in a segment of the levels. */
  lemma {:induction false} SealedHolder(heap: seq<Seg>, lv: set<nat>, last: nat, plain: Docs, added: Docs, x: DocId)
    returns (o: nat)
    requires last < |heap| && Owned(heap, added) && Complete(heap, lv, last, plain) && SubMap(plain, added)
    requires x in plain && x !in heap[last].known
    ensures o in lv && Holds(heap, o, x) && x in added && added[x] == plain[x]
  {
    assert !Holds(heap, last, x);
    o :| o in lv && Holds(heap, o, x);
  }

  ghost predicate InSync(s: State, w: World)
    requires w.c.st.last < |w.c.st.heap|
  {
    ServesExactly(s, SealedLive(w))
  }

  /** Drained and without erases, a searcher serves exactly the sealed documents. */
  lemma {:induction false} DrainedInSync(r: Rep, t: nat, i: nat)
    requires RepInv(r, t) && Drained(r) && Exact(r) && i < |r.searchers|
    ensures InSync(r.searchers[i], r.w)
  {
    forall x, v ensures Serves(r.searchers[i], x, v) <==> x in SealedLive(r.w) && SealedLive(r.w)[x] == v {
      if Serves(r.searchers[i], x, v) {
        SearcherInventsNothing(r, t, i, x, v);
      }
      if x in SealedLive(r.w) {
        SearcherLosesNothing(r, t, i, x);
      }
    }
  }

  ghost predicate ServesExactly(s: State, docs: Docs) {
    forall x, v :: Serves(s, x, v) <==> x in docs && docs[x] == v
  }

  ghost function TaskSteps(n: nat): seq<Event> {
    seq(n, i => TaskRuns)
  }

  /** A queue of n tasks is drained by n task steps: draining always succeeds. */
  lemma {:induction false} TasksDrain(r: Rep, t: nat, merging: bool, es: seq<Event>, end: Rep)
    requires RepInv(r, t) && Idle(r.w.c) && es == TaskSteps(|r.w.c.outbox|) && HappenAll(r, t, merging, es) == end
    ensures Drained(end) && end.w == r.w.(c := r.w.c.(outbox := []))
    decreases |r.w.c.outbox|
  {
    if r.w.c.outbox != [] {
      var r' := Happens(r, t, merging, TaskRuns);
      TaskStep(r, t, merging, r');
      assert es[0] == TaskRuns && es[1..] == TaskSteps(|r'.w.c.outbox|);
      TasksDrain(r', t, merging, es[1..], end);
    }
  }

  /** One task step takes one task off the queue and leaves the writer's index alone. */
  lemma {:induction false} TaskStep(r: Rep, t: nat, merging: bool, r': Rep)
    requires RepInv(r, t) && Idle(r.w.c) && r.w.c.outbox != [] && r' == Happens(r, t, merging, TaskRuns)
    ensures RepInv(r', t) && Idle(r'.w.c) && r'.w == r.w.(c := r.w.c.(outbox := r.w.c.outbox[1..]))
  {
    TaskKeeps(r, t);
  }

  // -------------------------------------------------------------------------- theorems

  /** Every interleaving: whenever the queue is empty the store names exactly the levels, and searchers hold
      at least every live sealed document; at all times they hold nothing else than sealed documents. */
  lemma {:induction false} EveryInterleavingReplicates(n: nat, t: nat, merging: bool, es: seq<Event>)
    requires t >= 1 && LegalEvents(map[], es)
    ensures
      var r := HappenAll(Fresh(n), t, merging, es);
      && (Drained(r) ==> r.store.Keys == LevelNames(r.w.c.st) && |r.store| == r.w.c.st.counter)
      && (forall i, x, v :: 0 <= i < |r.searchers| && Serves(r.searchers[i], x, v) ==>
            x in SealedDocs(r.w.c.st, r.w.added) && SealedDocs(r.w.c.st, r.w.added)[x] == v)
      && (Drained(r) ==> forall i, x :: 0 <= i < |r.searchers| && x in SealedLive(r.w) ==>
            Serves(r.searchers[i], x, SealedLive(r.w)[x]))
  {
    FreshInv(n, t);
    EventsKeep(Fresh(n), t, merging, es);
    var r := HappenAll(Fresh(n), t, merging, es);
    if Drained(r) {
      DrainedStore(r, t);
      forall i, x | 0 <= i < |r.searchers| && x in SealedLive(r.w)
        ensures Serves(r.searchers[i], x, SealedLive(r.w)[x]) {
        SearcherLosesNothing(r, t, i, x);
      }
    }
    forall i, x, v | 0 <= i < |r.searchers| && Serves(r.searchers[i], x, v)
      ensures x in SealedDocs(r.w.c.st, r.w.added) && SealedDocs(r.w.c.st, r.w.added)[x] == v
    {
      SearcherInventsNothing(r, t, i, x, v);
    }
  }

  lemma {:induction false} HappenOneAfterAnother(r: Rep, t: nat, merging: bool, es: seq<Event>, fs: seq<Event>)
    requires Shape(r.w.c)
    ensures HappenAll(r, t, merging, es + fs) == HappenAll(HappenAll(r, t, merging, es), t, merging, fs)
    decreases |es|
  {
    if es == [] {
      assert es + fs == fs;
    } else {
      assert (es + fs)[1..] == es[1..] + fs;
      HappenOneAfterAnother(Happens(r, t, merging, es[0]), t, merging, es[1..], fs);
    }
  }

  /** After every interleaving the oldest task can run, and every object it announces is then in the store, as it is
      now, under a name that is not deleted with it. */
  lemma {:induction false} EveryAnnouncementIsStored(n: nat, t: nat, merging: bool, es: seq<Event>, h: nat)
    requires t >= 1 && LegalEvents(map[], es)
    ensures
      var r := HappenAll(Fresh(n), t, merging, es);
      r.w.c.outbox != [] && h in r.w.c.outbox[0].inserted ==>
        && CanRun(r)
        && var name := r.w.c.st.heap[h].id;
           name !in r.w.c.outbox[0].erased && name in RunTask(r).store && RunTask(r).store[name] == r.w.c.st.heap[h]
  {
    FreshInv(n, t);
    EventsKeep(Fresh(n), t, merging, es);
    var r := HappenAll(Fresh(n), t, merging, es);
    if r.w.c.outbox != [] && h in r.w.c.outbox[0].inserted {
      AnnouncedIsStored(r, t, h);
    }
  }

  /** After every interleaving as many task steps as there are tasks empty the queue and change nothing else at the
      writer. */
  lemma {:induction false} EveryQueueDrains(n: nat, t: nat, merging: bool, es: seq<Event>)
    requires t >= 1 && LegalEvents(map[], es)
    ensures
      var r := HappenAll(Fresh(n), t, merging, es);
      var r' := HappenAll(Fresh(n), t, merging, es + TaskSteps(|r.w.c.outbox|));
      Drained(r') && r'.w == r.w.(c := r.w.c.(outbox := []))
  {
    FreshInv(n, t);
    EventsKeep(Fresh(n), t, merging, es);
    var r := HappenAll(Fresh(n), t, merging, es);
    var tasks := TaskSteps(|r.w.c.outbox|);
    HappenOneAfterAnother(Fresh(n), t, merging, es, tasks);
    TasksDrain(r, t, merging, tasks, HappenAll(r, t, merging, tasks));
  }

  /** Every interleaving without erases: once the queue is empty the store holds each segment's contents, and every
      searcher serves exactly the sealed documents. */
  lemma {:induction false} EraseFreeInterleavingsAgree(n: nat, t: nat, merging: bool, es: seq<Event>)
    requires t >= 1 && LegalEvents(map[], es) && NoErase(es)
    ensures
      var r := HappenAll(Fresh(n), t, merging, es);
      Drained(r) ==>
        && (forall h :: h in LevelSet(r.w.c.st) ==>
              h < |r.w.c.st.heap| && r.w.c.st.heap[h].id in r.store && r.store[r.w.c.st.heap[h].id] == r.w.c.st.heap[h])
        && (forall i :: 0 <= i < |r.searchers| ==> InSync(r.searchers[i], r.w))
  {
    FreshInv(n, t);
    EventsKeep(Fresh(n), t, merging, es);
    var r := HappenAll(Fresh(n), t, merging, es);
    if Drained(r) {
      forall h | h in LevelSet(r.w.c.st)
        ensures h < |r.w.c.st.heap| && r.w.c.st.heap[h].id in r.store &&
          r.store[r.w.c.st.heap[h].id] == r.w.c.st.heap[h]
      {
        DrainedContents(r, t, h);
      }
      forall i | 0 <= i < |r.searchers| ensures InSync(r.searchers[i], r.w) {
        DrainedInSync(r, t, i);
      }
    }
  }
}
