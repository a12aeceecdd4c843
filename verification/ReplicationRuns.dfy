/** Every interleaving of writes and tasks: the object store and the searchers end up with the writer's segments. */
module ReplicationRuns {
  import opened Prelude
  import opened Levels
  import opened IndexModel
  import opened IndexInvariant
  import opened IndexSteps
  import opened IndexRuns
  import opened TaskQueue
  import opened Replication

  ghost function Written(r: Rep, t: nat, m: Step): Rep
    requires Enabled(r.w, m)
  {
    r.(w := Next(r.w, t, m))
  }

  // ------------------------------------------------------------------- writer steps

  lemma {:induction false} PutQueue(r: Rep, t: nat, d: Doc)
    requires RepInv(r, t) && Enabled(r.w, DoPut(d))
    ensures QueueInv(Put(r.w.c, t, d), r.store)
  {
    var c := r.w.c.(st := PutDoc(r.w.c.st, d));
    PutDocQueue(r.w.c, d, r.store);
    PutDocCore(r.w.c.st, r.w.plain, r.w.added, d);
    if c.st.heap[c.st.last].Size() == t {
      SealQueue(c, r.store);
    }
  }

  lemma {:induction false} PutDocDelivers(r: Rep, t: nat, d: Doc)
    requires RepInv(r, t) && Enabled(r.w, DoPut(d))
    ensures
      var c := r.w.c.(st := PutDoc(r.w.c.st, d));
      var open, added := c.st.heap[c.st.last].known, r.w.added[d.id := d.vec];
      && StoreSealed(r.store, open, added)
      && forall i :: 0 <= i < |r.searchers| ==>
           Fed(r.searchers[i], open, added) && CatchesUp(r.searchers[i], c.st.heap, LevelSet(c.st), Queue(c))
  {
    var st, added := r.w.c.st, r.w.added;
    var c := r.w.c.(st := PutDoc(st, d));
    var open := st.heap[st.last].known;
    assert LevelSet(c.st) == LevelSet(st);
    assert c.st.heap[c.st.last].known == open + {d.id};
    forall x | x in r.store ensures Sealed(r.store[x].live, open + {d.id}, added[d.id := d.vec]) {
      SealedLater(r.store[x].live, open, added, d);
    }
    forall i | 0 <= i < |r.searchers|
      ensures Fed(r.searchers[i], open + {d.id}, added[d.id := d.vec])
      ensures CatchesUp(r.searchers[i], c.st.heap, LevelSet(c.st), Queue(c))
    {
      var s := r.searchers[i];
      forall h | h in s.segments ensures Sealed(s.heap[h].live, open + {d.id}, added[d.id := d.vec]) {
        SealedLater(s.heap[h].live, open, added, d);
      }
      PutDocCatchesUp(s, st.heap, LevelSet(st), st.last, Queue(r.w.c), d);
    }
  }

  lemma {:induction false} SealDelivers(s: State, store: Store, c: Config, open: set<DocId>, added: Docs)
    requires HandlesOk(c.st) && Listed(c.st) && StoreSealed(store, open, added)
    requires Fed(s, open, added) && CatchesUp(s, c.st.heap, LevelSet(c.st), Queue(c))
    ensures
      var c' := SealStep(c);
      && StoreSealed(store, {}, added) && Fed(s, {}, added)
      && CatchesUp(s, c'.st.heap, LevelSet(c'.st), Queue(c'))
  {
    var st, q, c' := c.st, Queue(c), SealStep(c);
    SealBag(st);
    SealCatchesUp(s, st.heap, LevelSet(st), st.last, st.drawn, q);
    assert Queue(c') == WithLast(q, q[|q| - 1].(inserted := q[|q| - 1].inserted + [st.last]));
  }

  lemma {:induction false} PutSealDelivers(r: Rep, t: nat, d: Doc)
    requires RepInv(r, t) && Enabled(r.w, DoPut(d))
    requires PutDoc(r.w.c.st, d).heap[r.w.c.st.last].Size() == t
    ensures
      var c', added := Put(r.w.c, t, d), r.w.added[d.id := d.vec];
      && StoreSealed(r.store, {}, added)
      && forall i :: 0 <= i < |r.searchers| ==>
           Fed(r.searchers[i], {}, added) && CatchesUp(r.searchers[i], c'.st.heap, LevelSet(c'.st), Queue(c'))
  {
    PutDocDelivers(r, t, d);
    var c, added := r.w.c.(st := PutDoc(r.w.c.st, d)), r.w.added[d.id := d.vec];
    PutDocCore(r.w.c.st, r.w.plain, r.w.added, d);
    forall i | 0 <= i < |r.searchers|
      ensures Fed(r.searchers[i], {}, added)
      ensures CatchesUp(r.searchers[i], SealStep(c).st.heap, LevelSet(SealStep(c).st), Queue(SealStep(c)))
    {
      SealDelivers(r.searchers[i], r.store, c, c.st.heap[c.st.last].known, added);
    }
  }

  lemma {:induction false} PutDelivers(r: Rep, t: nat, d: Doc)
    requires RepInv(r, t) && Enabled(r.w, DoPut(d))
    ensures RepInv(Written(r, t, DoPut(d)), t)
  {
    PutKeepsInv(r.w, t, d);
    PutQueue(r, t, d);
    if PutDoc(r.w.c.st, d).heap[r.w.c.st.last].Size() == t {
      PutSealDelivers(r, t, d);
    } else {
      PutDocDelivers(r, t, d);
    }
  }

  lemma {:induction false} PairStepQueue(c: Config, j: nat)
    requires c.phase.Passing? && PairAt(c.st, c.phase.level, j)
    ensures
      var l, g := c.st.levels[c.phase.level][j].value, c.st.levels[c.phase.level][j + 1].value;
      Queue(PairStep(c, j)) == PairQueue(c.st.heap, l, g, Queue(c))
  {
  }

  /** A step that leaves the open segment, the store and the searchers alone. */
  lemma {:induction false} DeliversAll(r: Rep, t: nat, r': Rep)
    requires RepInv(r, t) && r' == r.(w := r'.w) && r'.w.added == r.w.added && Inv(r'.w, t)
    requires r'.w.c.st.last == r.w.c.st.last && r'.w.c.st.heap[r.w.c.st.last] == r.w.c.st.heap[r.w.c.st.last]
    requires QueueInv(r'.w.c, r.store)
    requires forall k :: 0 <= k < |r.searchers| ==>
      CatchesUp(r.searchers[k], r'.w.c.st.heap, LevelSet(r'.w.c.st), Queue(r'.w.c))
    ensures RepInv(r', t)
  {
  }

  lemma {:induction false} PairDelivers(r: Rep, t: nat, j: nat)
    requires RepInv(r, t) && Enabled(r.w, DoPair(j))
    ensures RepInv(Written(r, t, DoPair(j)), t)
  {
    var c, st, q, i := r.w.c, r.w.c.st, Queue(r.w.c), r.w.c.phase.level;
    var l, g := st.levels[i][j].value, st.levels[i][j + 1].value;
    PairKeepsInv(r.w, t, j);
    PairKeepsQueue(c, j, r.store);
    PairListed(st, i, j);
    PairStepQueue(c, j);
    forall k | 0 <= k < |r.searchers|
      ensures CatchesUp(r.searchers[k], PairStep(c, j).st.heap, LevelSet(PairStep(c, j).st), Queue(PairStep(c, j)))
    {
      PairCatchesUp(r.searchers[k], st.heap, LevelSet(st), st.drawn, l, g, q);
    }
    DeliversAll(r, t, Written(r, t, DoPair(j)));
  }

  /** A step that only moves the collected task into the queue. */
  lemma {:induction false} FlushDelivers(r: Rep, t: nat, c': Config)
    requires RepInv(r, t) && Inv(r.w.(c := c'), t) && LevelSet(c'.st) == LevelSet(r.w.c.st)
    requires c'.st.heap == r.w.c.st.heap && c'.st.last == r.w.c.st.last && c'.st.drawn == r.w.c.st.drawn
    requires Queue(c') == Queue(r.w.c) || Queue(c') == Queue(r.w.c) + [NO_TASK]
    ensures RepInv(r.(w := r.w.(c := c')), t)
  {
    FlushedQueue(r.w.c, c', r.store);
    forall i | 0 <= i < |r.searchers|
      ensures CatchesUp(r.searchers[i], c'.st.heap, LevelSet(c'.st), Queue(c'))
    {
      FlushedCatchesUp(r.searchers[i], r.w.c.st.heap, LevelSet(r.w.c.st), Queue(r.w.c));
    }
  }

  lemma {:induction false} EraseDelivers(r: Rep, t: nat, xs: set<DocId>)
    requires RepInv(r, t) && Enabled(r.w, DoErase(xs))
    ensures RepInv(Written(r, t, DoErase(xs)), t)
  {
    var c, st := r.w.c, r.w.c.st;
    EraseKeepsInv(r.w, t, xs);
    EraseQueue(c, xs, r.store);
    var st' := EraseEverywhere(st, xs);
    assert st'.heap == Marked(st.heap, st.segments, st.last, xs);
    assert LevelSet(st') == LevelSet(st);
    forall i | 0 <= i < |r.searchers| ensures CatchesUp(r.searchers[i], st'.heap, LevelSet(st'), Queue(c)) {
      EraseCatchesUp(r.searchers[i], st.heap, st.segments, LevelSet(st), st.last, Queue(c), xs);
    }
  }

  lemma {:induction false} FlushAddQueue(c: Config)
    requires Shape(c) && Collected(c) && c.phase.Filling?
    ensures FlushAdd(c).st == c.st
    ensures Queue(FlushAdd(c)) == Queue(c) || Queue(FlushAdd(c)) == Queue(c) + [NO_TASK]
  {
    if c.cur.inserted == [] {
      assert c.cur == NO_TASK;
    }
  }

  lemma {:induction false} FlushPassQueue(c: Config)
    requires Shape(c) && Collected(c) && c.phase.Passing?
    ensures FlushPass(c).st == SyncSegments(c.st, c.cur)
    ensures Queue(FlushPass(c)) == Queue(c) || Queue(FlushPass(c)) == Queue(c) + [NO_TASK]
  {
    if c.cur.inserted == [] || c.cur.erased == [] {
      assert c.cur == NO_TASK;
    }
  }

  lemma {:induction false} QuietDelivers(r: Rep, t: nat, m: Step)
    requires RepInv(r, t) && Enabled(r.w, m) && (m.DoFlushAdd? || m.DoBegin? || m.DoFlushPass? || m.DoCompact?)
    ensures
      var c, c' := r.w.c, Next(r.w, t, m).c;
      && LevelSet(c'.st) == LevelSet(c.st)
      && c'.st.heap == c.st.heap && c'.st.last == c.st.last && c'.st.drawn == c.st.drawn
      && (Queue(c') == Queue(c) || Queue(c') == Queue(c) + [NO_TASK])
  {
    match m
    case DoFlushAdd => FlushAddQueue(r.w.c);
    case DoBegin =>
    case DoFlushPass => FlushPassQueue(r.w.c);
    case DoCompact => CompactedBag(r.w.c.st.levels);
  }

  /** Every step of the writer keeps the replication invariant. */
  lemma {:induction false} WriteKeeps(r: Rep, t: nat, m: Step)
    requires RepInv(r, t) && Enabled(r.w, m)
    ensures RepInv(Written(r, t, m), t)
  {
    if m.DoPut? {
      PutDelivers(r, t, m.d);
    } else if m.DoPair? {
      PairDelivers(r, t, m.j);
    } else if m.DoErase? {
      EraseDelivers(r, t, m.xs);
    } else {
      StepKeepsInv(r.w, t, m);
      QuietDelivers(r, t, m);
      FlushDelivers(r, t, Next(r.w, t, m).c);
    }
  }

  lemma {:induction false} WritesKeep(r: Rep, t: nat, ms: seq<Step>, w': World)
    requires RepInv(r, t) && Runs(r.w, t, ms, w')
    ensures RepInv(r.(w := w'), t)
    decreases |ms|
  {
    if ms != [] {
      WriteKeeps(r, t, ms[0]);
      WritesKeep(Written(r, t, ms[0]), t, ms[1..], w');
    }
  }

  // -------------------------------------------------------------------- task steps

  lemma {:induction false} TaskCanRun(r: Rep, t: nat)
    requires RepInv(r, t) && Idle(r.w.c) && r.w.c.outbox != []
    ensures CanRun(r) && Queue(r.w.c)[0] == r.w.c.outbox[0]
    ensures Queue(RunTask(r).w.c) == Queue(r.w.c)[1..]
  {
    QueueHead(r.w.c);
    HeadInHeap(r.w.c.st.heap, LevelSet(r.w.c.st), r.w.c.st.last, Queue(r.w.c));
  }

  lemma {:induction false} QueueHead(c: Config)
    requires c.outbox != []
    ensures Queue(c)[0] == c.outbox[0] && Queue(c.(outbox := c.outbox[1..])) == Queue(c)[1..]
  {
  }

  lemma {:induction false} HeadInHeap(heap: seq<Seg>, lv: set<nat>, last: nat, q: seq<Task>)
    requires PublishOk(heap, lv, last, q) && q != []
    ensures forall h :: h in q[0].inserted ==> h < |heap|
  {
  }

  /** Every object a task announces is in the store, as it is now, when a searcher asks for it, and its name is
      not among the names it deletes. */
  lemma {:induction false} AnnouncedIsStored(r: Rep, t: nat, h: nat)
    requires RepInv(r, t) && Idle(r.w.c) && r.w.c.outbox != [] && h in r.w.c.outbox[0].inserted
    ensures CanRun(r)
    ensures
      var name := r.w.c.st.heap[h].id;
      && name !in r.w.c.outbox[0].erased
      && name in RunTask(r).store
      && RunTask(r).store[name] == r.w.c.st.heap[h]
  {
    TaskCanRun(r, t);
    var st, q := r.w.c.st, Queue(r.w.c);
    FetchFinds(r.store, st.heap, LevelSet(st), st.last, st.drawn, q, h);
  }

  lemma {:induction false} TaskKeeps(r: Rep, t: nat)
    requires RepInv(r, t) && Idle(r.w.c) && r.w.c.outbox != []
    ensures CanRun(r) && RepInv(RunTask(r), t) && Idle(RunTask(r).w.c)
  {
    TaskCanRun(r, t);
    var st, q, r' := r.w.c.st, Queue(r.w.c), RunTask(r);
    assert q != [] && (forall h :: h in q[0].inserted ==> h < |st.heap|);
    PopQueue(st.heap, LevelSet(st), st.last, st.drawn, q);
    RunStore(st.heap, LevelSet(st), st.last, st.drawn, q, r.store);
    StoreAfterSealed(r.store, st.heap, q[0], st.drawn, st.last, r.w.added);
    forall i | 0 <= i < |r.searchers|
      ensures Fed(r'.searchers[i], st.heap[st.last].known, r.w.added)
      ensures CatchesUp(r'.searchers[i], st.heap, LevelSet(st), Queue(r'.w.c))
    {
      FetchAllFed(r.searchers[i], r'.store, NameList(st.heap, q[0].inserted), st.heap[st.last].known, r.w.added);
      RunCatchesUp(r.searchers[i], st.heap, LevelSet(st), st.last, st.drawn, q, r.store);
    }
  }
}
