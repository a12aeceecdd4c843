/** Two runs after which a searcher serves an erased document. */
module StaleRuns {
  import opened Prelude
  import opened Levels
  import opened IndexModel
  import opened IndexInvariant
  import opened IndexRuns
  import opened TaskQueue
  import opened Replication
  import opened ReplicationRuns
  import opened ReplicationTheorems
  import opened StaleDocuments

  ghost function Queued(d: Doc): Rep {
    Happens(Fresh(1), 1, false, Call(AddOp([d])))
  }

  ghost function Published(d: Doc): Rep {
    Happens(Queued(d), 1, false, TaskRuns)
  }

  /** One document added: it is sealed, and its task waits. */
  lemma {:induction false} QueueOne(d: Doc)
    ensures RepInv(Queued(d), 1) && Idle(Queued(d).w.c) && |Queued(d).w.c.outbox| == 1 && |Queued(d).searchers| == 1
    ensures SealedLive(Queued(d).w) == Queued(d).w.plain == map[d.id := d.vec]
  {
    FreshInv(1, 1);
    OneDoc(d);
    assert LegalEvents(map[], [Call(AddOp([d]))]) by {
      assert [Call(AddOp([d]))][1..] == [];
    }
    EventKeeps(Fresh(1), 1, false, Call(AddOp([d])));
  }

  /** A task step leaves the writer's documents alone and takes one task off the queue. */
  lemma {:induction false} TaskTaken(r: Rep, t: nat)
    requires RepInv(r, t) && Idle(r.w.c) && |r.w.c.outbox| == 1
    ensures
      var r' := Happens(r, t, false, TaskRuns);
      && RepInv(r', t) && Drained(r') && |r'.searchers| == |r.searchers|
      && SealedLive(r'.w) == SealedLive(r.w) && r'.w.plain == r.w.plain
  {
    TaskKeeps(r, t);
  }

  /** One document added and its task run. */
  lemma {:induction false} PublishOne(d: Doc)
    ensures RepInv(Published(d), 1) && Drained(Published(d)) && |Published(d).searchers| == 1
    ensures SealedLive(Published(d).w) == Published(d).w.plain == map[d.id := d.vec]
  {
    QueueOne(d);
    TaskTaken(Queued(d), 1);
  }

  /** A document erased after it was published is still served: a run of three events. */
  lemma {:induction false} StaleSearcher(d: Doc)
    ensures
      var r := Happens(Published(d), 1, false, Call(EraseOp({d.id})));
      && Drained(r) && |r.searchers| == 1 && r.w.plain == map[] && Serves(r.searchers[0], d.id, d.vec)
  {
    PublishOne(d);
    SearcherLosesNothing(Published(d), 1, 0, d.id);
  }

  /** Adding one document at threshold one seals it and queues one task. */
  lemma {:induction false} OneDoc(d: Doc)
    ensures AllNew(map[], [d])
    ensures
      var w := AddTo(EMPTY_WORLD, 1, false, [d]);
      && w.plain == map[d.id := d.vec] && |w.c.outbox| == 1
      && w.c.st.last < |w.c.st.heap| && w.c.st.heap[w.c.st.last].known == {}
  {
    var c := Begin();
    assert [d][1..] == [];
    assert Extend(map[], [d]) == Extend(map[d.id := d.vec], []);
    assert PutAll(c, 1, [d]) == PutAll(Put(c, 1, d), 1, []);
    var live := map[][d.id := d.vec];
    assert live.Keys == {d.id} && |live| == |live.Keys|;
    assert PutDoc(c.st, d).heap[0].live == live;
  }

  // ------------------------------------------------------------- a captured segment

  ghost function Single(id: SegId, d: Doc): Seg {
    Seg(id, {d.id}, map[d.id := d.vec])
  }

  lemma {:induction false} OneLive(id: SegId, d: Doc)
    ensures AddDoc(Seg(id, {}, map[]), d) == Single(id, d) && Single(id, d).Size() == 1
  {
    assert map[d.id := d.vec].Keys == {d.id};
  }

  /** Filling an empty open segment at threshold one: one document seals it, and one callback is made. */
  lemma {:induction false} PutOne(c: Config, d: Doc, name: SegId, c': Config)
    requires Shape(c) && c.cur == NO_TASK && c.st.last + 1 == |c.st.heap| &&
      c.st.heap[c.st.last] == Seg(name, {}, map[])
    requires c' == c.(
      st := State(c.st.heap[..c.st.last] + [Single(name, d), Seg(c.st.drawn, {}, map[])], c.st.segments + [c.st.last],
                  Place(c.st.levels, c.st.last, 1), |c.st.heap|, c.st.drawn + 1, c.st.counter + 1, c.st.sz + 1),
      cur := Task([], [c.st.last]))
    ensures Shape(c') && PutAll(c, 1, [d]) == c'
  {
    assert [d][1..] == [];
    OneLive(name, d);
    var st := PutDoc(c.st, d);
    assert st.heap == c.st.heap[..c.st.last] + [Single(name, d)];
    assert c'.st.heap == st.heap + [Seg(c.st.drawn, {}, map[])];
    assert Put(c, 1, d) == c';
    PutKeepsShape(c, 1, d);
    assert PutAll(c, 1, [d]) == PutAll(c', 1, []);
  }

  lemma {:induction false} PlaceOne(levels: LevelTable, h: nat)
    ensures Place([], h, 1) == [[Some(h)]]
    ensures levels != [] ==> Place(levels, h, 1) == levels[0 := levels[0] + [Some(h)]]
  {
    assert CeilLog(1, 0) == 0 && LevelFor(1) == 0;
    var none: LevelTable := [];
    assert GrowTo(none, 0) == none && GrowTo(none, 1) == [[]];
    assert Place(none, h, 1)[0] == [Some(h)];
    if levels != [] {
      assert GrowTo(levels, 0) == levels && GrowTo(levels, 1) == levels;
    }
  }

  lemma {:induction false} OnlyName(heap: seq<Seg>, h: nat)
    requires h < |heap|
    ensures NamesOf(heap, [h]) == {heap[h].id}
  {
    assert h in [h];
  }

  lemma {:induction false} RemoveHead(h: nat, rest: seq<nat>, heap: seq<Seg>, id: SegId)
    requires h < |heap| && forall g :: g in rest ==> g < |heap|
    ensures forall g :: g in [h] + rest ==> g < |heap|
    ensures RemoveFirst([h] + rest, heap, id) == if heap[h].id == id then rest else [h] + RemoveFirst(rest, heap, id)
  {
    assert ([h] + rest)[1..] == rest;
  }

  /** A pass over a level of at most one slot does nothing. */
  lemma {:induction false} PassAlone(c: Config, amount: nat)
    requires Shape(c) && c.phase.Passing? && c.cur == NO_TASK && amount > 0
    requires c.phase.level < |c.st.levels| && |c.st.levels[c.phase.level]| <= 1
    ensures Passes(c, amount) == Passes(c.(phase := Passing(c.phase.level + 1)), amount)
  {
    assert PassFrom(c, 0, amount) == (c, amount);
    assert c.st.segments + [] == c.st.segments;
    assert FlushPass(c) == c.(phase := Passing(c.phase.level + 1));
  }

  /** The index after the first document: one sealed segment in level zero, one callback. */
  ghost function One(d: Doc): Config {
    Config(State([Single(0, d), Seg(1, {}, map[])], [0], [[Some(0)]], 1, 2, 1, 1),
           Filling, NO_TASK, [Task([], [0])], {0})
  }

  lemma {:induction false} AddFirst(d: Doc)
    ensures Add(Begin(), 1, true, [d]) == One(d)
  {
    FillFirst(d);
    PassAlone(One(d).(phase := Passing(0)), MERGE_AMOUNT);
    assert Compacted([[Some(0)]]) == [[Some(0)]];
  }

  lemma {:induction false} FillFirst(d: Doc)
    ensures Shape(One(d)) && Shape(PutAll(Begin(), 1, [d])) && FlushAdd(PutAll(Begin(), 1, [d])) == One(d)
  {
    var c := Config(One(d).st, Filling, Task([], [0]), [], {});
    PlaceOne([], 0);
    assert START.heap[..0] + [Single(0, d), Seg(1, {}, map[])] == One(d).st.heap;
    PutOne(Begin(), d, 0, c);
    OnlyName(c.st.heap, 0);
  }

  /** The index after the second document was sealed beside the first. */
  ghost function Beside(d: Doc, e: Doc): Config {
    Config(State([Single(0, d), Single(1, e), Seg(2, {}, map[])], [0, 1], [[Some(0), Some(1)]], 2, 3, 2, 2),
           Filling, NO_TASK, [Task([], [0]), Task([], [1])], {0, 1})
  }

  lemma {:induction false} FillSecond(d: Doc, e: Doc)
    ensures Shape(One(d)) && Shape(PutAll(One(d), 1, [e])) && FlushAdd(PutAll(One(d), 1, [e])) == Beside(d, e)
  {
    var c := Config(Beside(d, e).st, Filling, Task([], [1]), [Task([], [0])], {0});
    PlaceOne([[Some(0)]], 1);
    assert [Some(0)] + [Some(1)] == [Some(0), Some(1)];
    assert One(d).st.heap[..1] + [Single(1, e), Seg(2, {}, map[])] == c.st.heap;
    PutOne(One(d), e, 1, c);
    OnlyName(c.st.heap, 1);
  }

  /** Both segments merged into the first one's object, and the pass not yet flushed. */
  ghost function Joint(d: Doc, e: Doc): Config {
    Config(State([Absorb(Single(0, d), Single(1, e), 3), Single(1, e), Seg(2, {}, map[])], [0, 1],
                 [[None, None], [Some(0)]], 2, 4, 1, 2),
           Passing(0), Task([1, 0], [0]), [Task([], [0]), Task([], [1])], {0, 1})
  }

  lemma {:induction false} PromoteTwo()
    ensures Promote([[Some(0), Some(1)]], 0, 0) == [[None, None], [Some(0)]]
  {
    var up := Promote([[Some(0), Some(1)]], 0, 0);
    assert up[0] == [None, None] && up[1] == [Some(0)];
  }

  lemma {:induction false} JoinPair(d: Doc, e: Doc, c: Config)
    requires c == Beside(d, e).(phase := Passing(0))
    ensures Shape(c) && PairAt(c.st, 0, 0) && PairSize(c.st, 0, 0) == 2 && PairStep(c, 0) == Joint(d, e)
  {
    OneLive(0, d);
    OneLive(1, e);
    PromoteTwo();
    assert PairTask(c.st, NO_TASK, 0, 0) == Task([1, 0], [0]);
    assert MergePair(c.st, 0, 0).heap == Joint(d, e).st.heap;
  }

  /** The second document's own segment is announced by the second task, was absorbed by the first one's, and is in
      neither the list nor the open segment. */
  ghost predicate Captured(c: Config, e: Doc) {
    && c.st.segments == [0, 0] && c.st.last == 2 && |c.st.heap| == 3 && c.st.heap[1] == Single(1, e)
    && |c.outbox| == 3 && c.outbox[1] == Task([], [1])
  }

  /** Removing by the recorded names takes the absorbed segment off the list, but not the stale entry of the segment
      that absorbed it and has a new name. */
  lemma {:induction false} AbsorbedGoes(heap: seq<Seg>)
    requires |heap| >= 2 && heap[0].id == 3 && heap[1].id == 1
    ensures RemoveNamed([0, 1] + [0], heap, [1, 0]) == [0, 0]
  {
    RemoveHead(0, [1, 0], heap, 1);
    RemoveHead(1, [0], heap, 1);
    RemoveHead(0, [0], heap, 0);
    RemoveHead(0, [], heap, 0);
    assert [0, 1] + [0] == [0] + [1, 0] && [1, 0] == [1] + [0] && [0, 0] == [0] + [0] && [0] == [0] + [];
    assert RemoveNamed([0, 0], heap, [0]) == [0, 0] by {
      assert [0][1..] == [];
    }
    assert RemoveNamed([0, 1] + [0], heap, [1, 0]) == [0, 0] by {
      assert [1, 0][1..] == [0];
    }
  }

  lemma {:induction false} FlushJoint(d: Doc, e: Doc)
    ensures
      && Shape(Joint(d, e)) && Captured(FlushPass(Joint(d, e)), e) && FlushPass(Joint(d, e)).phase == Passing(1)
      && FlushPass(Joint(d, e)).cur == NO_TASK && FlushPass(Joint(d, e)).st.levels == [[None, None], [Some(0)]]
  {
    AbsorbedGoes(Joint(d, e).st.heap);
  }

  lemma {:induction false} AddSecond(d: Doc, e: Doc)
    ensures Shape(One(d)) && Captured(Add(One(d), 1, true, [e]), e)
  {
    FillSecond(d, e);
    var c := Beside(d, e).(phase := Passing(0));
    JoinPair(d, e, c);
    assert PassFrom(Joint(d, e), 1, 198) == (Joint(d, e), 198);
    assert PassFrom(c, 0, MERGE_AMOUNT) == (Joint(d, e), 198);
    FlushJoint(d, e);
    var c1 := FlushPass(Joint(d, e));
    FlushKeepsShape(Joint(d, e));
    PassAlone(c1, 198);
    assert Passes(c, MERGE_AMOUNT) == Passes(c1, 198);
    var c2 := c1.(phase := Passing(2));
    assert Passes(c2, 198) == (c2, 198);
  }

  lemma {:induction false} CapturedIsHeld(c: Config, e: Doc)
    requires Captured(c, e)
    ensures HeldAside(c, e.id)
  {
    assert 1 in c.outbox[1].inserted && Holds(c.st.heap, 1, e.id);
  }

  ghost function FirstAdded(d: Doc): Rep {
    Happens(Fresh(1), 1, true, Call(AddOp([d])))
  }

  ghost function BothAdded(d: Doc, e: Doc): Rep {
    Happens(FirstAdded(d), 1, true, Call(AddOp([e])))
  }

  ghost function SecondErased(d: Doc, e: Doc): Rep {
    Happens(BothAdded(d, e), 1, true, Call(EraseOp({e.id})))
  }

  lemma {:induction false} ExtendOne(m: Docs, d: Doc)
    ensures Extend(m, [d]) == m[d.id := d.vec] && (d.id !in m ==> AllNew(m, [d]))
    ensures d.id !in m ==> LegalEvents(m, [Call(AddOp([d]))])
  {
    assert [d][1..] == [] && [Call(AddOp([d]))][1..] == [];
    assert Extend(m, [d]) == Extend(m[d.id := d.vec], []);
  }

  lemma {:induction false} AfterFirst(d: Doc)
    ensures RepInv(FirstAdded(d), 1) && FirstAdded(d).w == World(One(d), map[d.id := d.vec], map[d.id := d.vec])
    ensures |FirstAdded(d).searchers| == 1
  {
    FreshInv(1, 1);
    ExtendOne(map[], d);
    EventKeeps(Fresh(1), 1, true, Call(AddOp([d])));
    AddFirst(d);
  }

  lemma {:induction false} AfterBoth(d: Doc, e: Doc)
    requires d.id != e.id
    ensures
      var r, docs := BothAdded(d, e), map[d.id := d.vec][e.id := e.vec];
      && RepInv(r, 1) && Idle(r.w.c) && |r.searchers| == 1
      && Captured(r.w.c, e) && r.w.plain == docs && r.w.added == docs
  {
    AfterFirst(d);
    ExtendOne(map[d.id := d.vec], e);
    EventKeeps(FirstAdded(d), 1, true, Call(AddOp([e])));
    AddSecond(d, e);
  }

  lemma {:induction false} EraseHeldAside(r: Rep, t: nat, merging: bool, x: DocId, i: nat)
    requires RepInv(r, t) && Idle(r.w.c) && i < |r.searchers| && HeldAside(r.w.c, x)
    ensures
      var r' := Happens(r, t, merging, Call(EraseOp({x})));
      && RepInv(r', t) && Idle(r'.w.c) && |r'.searchers| == |r.searchers| && !NoneStale(r'.w, r'.searchers[i])
      && r'.w.c.outbox == r.w.c.outbox && r'.w.plain == r.w.plain - {x} && r'.w.added == r.w.added
  {
    EventKeeps(r, t, merging, Call(EraseOp({x})));
    assert !ReachedBy(r, Call(EraseOp({x})), i);
    EraseEventStale(r, t, {x}, i);
  }

  lemma {:induction false} AddedThenErased(m: Docs, d: Doc)
    requires d.id !in m
    ensures m[d.id := d.vec] - {d.id} == m
  {
  }

  /** A document erased before any searcher heard of it comes back: two documents are added and merged, the second is
      erased, then the three queued tasks run. The second task publishes the segment object that the merge took off the
      list, which the erase did not mark. */
  lemma {:induction false} CapturedDocumentReturns(d: Doc, e: Doc)
    requires d.id != e.id
    ensures
      var r := HappenAll(SecondErased(d, e), 1, true, TaskSteps(3));
      && Drained(r) && |r.searchers| == 1 && r.w.plain == map[d.id := d.vec]
      && Serves(r.searchers[0], e.id, e.vec)
  {
    var r, es := SecondErased(d, e), TaskSteps(3);
    var end := HappenAll(r, 1, true, es);
    AfterBoth(d, e);
    CapturedIsHeld(BothAdded(d, e).w.c, e);
    EraseHeldAside(BothAdded(d, e), 1, true, e.id, 0);
    AddedThenErased(map[d.id := d.vec], e);
    TasksDrain(r, 1, true, es, end);
    TasksAreLegal(r.w.added, 3);
    EventsStale(r, 1, true, es, 0, end);
    EventsKeep(r, 1, true, es);
    StaleIsServed(end, 1, 0, e.id);
  }

  lemma {:induction false} TasksAreLegal(added: Docs, n: nat)
    ensures LegalEvents(added, TaskSteps(n))
  {
    if n > 0 {
      assert TaskSteps(n)[1..] == TaskSteps(n - 1);
      TasksAreLegal(added, n - 1);
    }
  }

  /** With the queue empty, something stale is served; if only one document was ever erased, it is that one. */
  lemma {:induction false} StaleIsServed(r: Rep, t: nat, i: nat, x: DocId)
    requires RepInv(r, t) && Drained(r) && i < |r.searchers| && !NoneStale(r.w, r.searchers[i])
    requires forall y :: y in r.w.added && y !in r.w.plain ==> y == x
    ensures x in r.w.added && Serves(r.searchers[i], x, r.w.added[x])
  {
    var s := r.searchers[i];
    var y :| Stale(r.w, s, y);
    assert Queue(r.w.c) == [NO_TASK];
    assert Has(s, x);
    var h :| h in s.segments && h < |s.heap| && x in s.heap[h].live;
    assert Reads(s, h) && Holds(s.heap, h, x);
  }
}
