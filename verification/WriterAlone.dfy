/** Tasks never change the writer's index: under every interleaving the writer is where its calls alone lead, with the
    callbacks that were served taken off the queue. */
module WriterAlone {
  import opened Prelude
  import opened Levels
  import opened IndexModel
  import opened IndexSteps
  import opened IndexRuns
  import opened LevelSizes
  import opened ReachableStates
  import opened ReplicationTheorems
  import opened Replication

  /** The same index with the first k callbacks served. */
  ghost predicate Behind(c: Config, d: Config, k: nat) {
    k <= |d.outbox| && c == d.(outbox := d.outbox[k..])
  }

  lemma {:induction false} EmitBehind(c: Config, d: Config, k: nat)
    requires Shape(c) && Shape(d) && Behind(c, d, k)
    ensures Behind(Emit(c), Emit(d), k)
  {
    assert (d.outbox + [d.cur])[k..] == d.outbox[k..] + [d.cur];
  }

  lemma {:induction false} PutAllBehind(c: Config, d: Config, k: nat, t: nat, docs: seq<Doc>)
    requires Shape(c) && Shape(d) && Behind(c, d, k)
    ensures Behind(PutAll(c, t, docs), PutAll(d, t, docs), k)
    decreases |docs|
  {
    if docs != [] {
      PutKeepsShape(c, t, docs[0]);
      PutKeepsShape(d, t, docs[0]);
      PutAllBehind(Put(c, t, docs[0]), Put(d, t, docs[0]), k, t, docs[1..]);
    }
  }

  lemma {:induction false} PassBehind(c: Config, d: Config, k: nat, j: nat, amount: nat)
    requires Shape(c) && Shape(d) && Behind(c, d, k) && d.phase.Passing? && d.phase.level < |d.st.levels|
    ensures
      var x, y := PassFrom(c, j, amount), PassFrom(d, j, amount);
      Behind(x.0, y.0, k) && x.1 == y.1
    decreases |d.st.levels[d.phase.level]| - j
  {
    var i := d.phase.level;
    if j + 1 >= |d.st.levels[i]| {
    } else if !PairAt(d.st, i, j) || PairSize(d.st, i, j) > amount {
      PassBehind(c, d, k, j + 1, amount);
    } else {
      PairKeepsShape(c, i, j);
      PairKeepsShape(d, i, j);
      PassBehind(PairStep(c, j), PairStep(d, j), k, j + 1, amount - PairSize(d.st, i, j));
    }
  }

  lemma {:induction false} FlushPassBehind(c: Config, d: Config, k: nat)
    requires Shape(c) && Shape(d) && Behind(c, d, k) && d.phase.Passing?
    ensures Behind(FlushPass(c), FlushPass(d), k)
  {
    assert (d.outbox + [d.cur])[k..] == d.outbox[k..] + [d.cur];
  }

  lemma {:induction false} PassesBehind(c: Config, d: Config, k: nat, amount: nat)
    requires Shape(c) && Shape(d) && Behind(c, d, k) && d.phase.Passing?
    ensures Behind(Passes(c, amount).0, Passes(d, amount).0, k)
    decreases |Bag(d.st.levels)|, |d.st.levels| - d.phase.level
  {
    if amount > 0 && d.phase.level < |d.st.levels| {
      PassBehind(c, d, k, 0, amount);
      var (c1, left) := PassFrom(c, 0, amount);
      var d1 := PassFrom(d, 0, amount).0;
      PassShrinks(d, 0, amount, d1);
      FlushKeepsShape(c1);
      FlushKeepsShape(d1);
      FlushPassBehind(c1, d1, k);
      PassesBehind(FlushPass(c1), FlushPass(d1), k, left);
    }
  }

  lemma {:induction false} AddBehind(c: Config, d: Config, k: nat, t: nat, merging: bool, docs: seq<Doc>)
    requires Shape(c) && Shape(d) && Behind(c, d, k)
    ensures Behind(Add(c, t, merging, docs), Add(d, t, merging, docs), k)
  {
    PutAllBehind(c, d, k, t, docs);
    PutAllKeepsShape(c, t, docs);
    PutAllKeepsShape(d, t, docs);
    var c1, d1 := PutAll(c, t, docs), PutAll(d, t, docs);
    if d1.cur.inserted != [] {
      EmitBehind(c1, d1, k);
    }
    if merging {
      PassesBehind(FlushAdd(c1).(phase := Passing(0)), FlushAdd(d1).(phase := Passing(0)), k, MERGE_AMOUNT);
    }
  }

  // --------------------------------------------------------------------- interleavings

  /** The calls of a run, without the tasks. */
  ghost function Calls(es: seq<Event>): seq<Op>
    decreases |es|
  {
    if es == [] then [] else (if es[0].Call? then [es[0].op] else []) + Calls(es[1..])
  }

  /** The writer of r after the first k callbacks of a writer that made the calls alone were served. */
  ghost predicate TrailsBy(r: Rep, w: World, k: nat) {
    Behind(r.w.c, w.c, k) && r.w.plain == w.plain && r.w.added == w.added
  }

  ghost function DoTo(w: World, t: nat, merging: bool, ops: seq<Op>): World
    requires Shape(w.c)
  {
    World(DoAll(w.c, t, merging, ops), PlainAll(w.plain, ops), AddedAll(w.added, ops))
  }

  ghost function DoOne(w: World, t: nat, merging: bool, op: Op): (w': World)
    requires Shape(w.c)
    ensures Shape(w'.c)
  {
    match op
    case AddOp(docs) => AddKeepsShape(w.c, t, merging, docs); AddTo(w, t, merging, docs)
    case EraseOp(xs) => World(Erase(w.c, xs), w.plain - xs, w.added)
  }

  lemma {:induction false} DoFirst(w: World, t: nat, merging: bool, op: Op, ops: seq<Op>)
    requires Shape(w.c)
    ensures DoTo(w, t, merging, [op] + ops) == DoTo(DoOne(w, t, merging, op), t, merging, ops)
  {
    assert ([op] + ops)[1..] == ops;
  }

  lemma {:induction false} CallFollows(r: Rep, w: World, k: nat, t: nat, merging: bool, op: Op)
    requires Shape(r.w.c) && Shape(w.c) && TrailsBy(r, w, k)
    ensures TrailsBy(Happens(r, t, merging, Call(op)), DoOne(w, t, merging, op), k)
  {
    match op
    case AddOp(docs) => AddBehind(r.w.c, w.c, k, t, merging, docs);
    case EraseOp(xs) =>
  }

  lemma {:induction false} ServedOne(r: Rep, w: World, k: nat)
    requires CanRun(r) && TrailsBy(r, w, k)
    ensures TrailsBy(RunTask(r), w, k + 1)
  {
    assert w.c.outbox[k..][1..] == w.c.outbox[k + 1..];
  }

  lemma {:induction false} EventsFollow(r: Rep, w: World, k: nat, t: nat, merging: bool, es: seq<Event>)
    returns (k': nat)
    requires Shape(r.w.c) && Shape(w.c) && TrailsBy(r, w, k)
    ensures TrailsBy(HappenAll(r, t, merging, es), DoTo(w, t, merging, Calls(es)), k')
    decreases |es|
  {
    if es == [] {
      k' := k;
    } else {
      var r' := Happens(r, t, merging, es[0]);
      match es[0]
      case Call(op) =>
        CallFollows(r, w, k, t, merging, op);
        DoFirst(w, t, merging, op, Calls(es[1..]));
        k' := EventsFollow(r', DoOne(w, t, merging, op), k, t, merging, es[1..]);
      case TaskRuns =>
        if CanRun(r) {
          ServedOne(r, w, k);
        }
        assert [] + Calls(es[1..]) == Calls(es[1..]);
        k' := EventsFollow(r', w, if CanRun(r) then k + 1 else k, t, merging, es[1..]);
    }
  }

  /** Every interleaving: the writer's index, its documents and what a subscriber holds are what the calls alone lead
      to; the queue is what is left of the callbacks once the oldest k are served. */
  lemma {:induction false} WriterIgnoresTasks(n: nat, t: nat, merging: bool, es: seq<Event>)
    ensures
      var w, alone := HappenAll(Fresh(n), t, merging, es).w, DoAll(Begin(), t, merging, Calls(es));
      && w.c.st == alone.st && w.c.mirror == alone.mirror
      && w.plain == PlainAll(map[], Calls(es)) && w.added == AddedAll(map[], Calls(es))
      && exists k :: 0 <= k <= |alone.outbox| && w.c.outbox == alone.outbox[k..]
  {
    assert Begin().outbox[0..] == Begin().outbox;
    var k := EventsFollow(Fresh(n), EMPTY_WORLD, 0, t, merging, es);
  }

  lemma {:induction false} CallsLegal(added: Docs, es: seq<Event>)
    requires LegalEvents(added, es)
    ensures Legal(added, Calls(es))
    decreases |es|
  {
    if es != [] {
      match es[0]
      case Call(AddOp(docs)) =>
        CallsLegal(Extend(added, docs), es[1..]);
        assert Calls(es)[1..] == Calls(es[1..]);
      case Call(EraseOp(xs)) =>
        CallsLegal(added, es[1..]);
        assert Calls(es)[1..] == Calls(es[1..]);
      case TaskRuns =>
        CallsLegal(added, es[1..]);
        assert Calls(es) == Calls(es[1..]);
    }
  }

  /** So whatever tasks run between the calls, the writer serves exactly the documents added and not erased, its levels,
      its list and its callbacks agree, and the levels bound the sizes. */
  lemma {:induction false} WriterSoundUnderTasks(n: nat, t: nat, merging: bool, es: seq<Event>)
    requires t >= 1 && LegalEvents(map[], es)
    ensures
      var w := HappenAll(Fresh(n), t, merging, es).w;
      && (forall x, v :: Serves(w.c.st, x, v) <==> x in w.plain && w.plain[x] == v)
      && Disjoint(w.c.st) && (forall h :: h in w.c.st.segments ==> ServedBySlot(w.c.st, h))
      && w.c.mirror == LevelNames(w.c.st) && w.c.st.counter == |Bag(w.c.st.levels)|
      && AtMost(w.c.st) && TopUsed(w.c.st.levels)
  {
    CallsLegal(map[], es);
    WriterIgnoresTasks(n, t, merging, es);
    EveryRunServesThePlainMap(t, merging, Calls(es));
    LevelsListAndCallbacksAgree(t, merging, Calls(es));
    LevelsBoundSizes(t, merging, Calls(es));
  }
}
