/** Runs of the index. `add` and `erase` are broken into the steps they take, every step keeps the invariant, and so
    every run of operations serves exactly the plain map of documents added and not erased. */
module IndexRuns {
  import opened Prelude
  import opened Levels
  import opened IndexModel
  import opened IndexInvariant
  import opened IndexSteps
  import Traces

  /** The index next to what it stands for: the documents added and not erased, and all documents ever added. */
  datatype World = World(c: Config, plain: Docs, added: Docs)

  datatype Step =
    | DoPut(d: Doc)
    | DoFlushAdd
    | DoBegin
    | DoPair(j: nat)
    | DoFlushPass
    | DoCompact
    | DoErase(xs: set<DocId>)

  ghost predicate Enabled(w: World, m: Step) {
    && Shape(w.c)
    && match m
       case DoPut(d) => w.c.phase.Filling? && d.id !in w.added
       case DoFlushAdd => w.c.phase.Filling?
       case DoBegin => w.c.phase.Filling? && w.c.cur == NO_TASK
       case DoPair(j) => w.c.phase.Passing? && PairAt(w.c.st, w.c.phase.level, j)
       case DoFlushPass => w.c.phase.Passing?
       case DoCompact => w.c.phase.Passing? && w.c.cur == NO_TASK
       case DoErase(_) => w.c.phase.Filling? && w.c.cur == NO_TASK
  }

  ghost function Next(w: World, t: nat, m: Step): World
    requires Enabled(w, m)
  {
    match m
    case DoPut(d) => World(Put(w.c, t, d), w.plain[d.id := d.vec], w.added[d.id := d.vec])
    case DoFlushAdd => w.(c := FlushAdd(w.c))
    case DoBegin => w.(c := w.c.(phase := Passing(0)))
    case DoPair(j) => w.(c := PairStep(w.c, j))
    case DoFlushPass => w.(c := FlushPass(w.c))
    case DoCompact => w.(c := Compact(w.c))
    case DoErase(xs) => World(Erase(w.c, xs), w.plain - xs, w.added)
  }

  ghost predicate Inv(w: World, t: nat) {
    match w
    case World(c, plain, added) =>
      && Shape(c)
      && CoreInv(c.st, plain, added)
      && Collected(c)
      && Mirrored(c)
      && c.st.heap[c.st.last].Size() < t
  }

  // -------------------------------------------------------------- one step at a time

  lemma {:induction false} PutKeepsInv(w: World, t: nat, d: Doc)
    requires Inv(w, t) && Enabled(w, DoPut(d))
    ensures Inv(Next(w, t, DoPut(d)), t)
  {
    var c' := w.c.(st := PutDoc(w.c.st, d));
    PutKeepsShape(w.c, t, d);
    PutDocCore(w.c.st, w.plain, w.added, d);
    PutDocMirror(w.c, d);
    if c'.st.heap[c'.st.last].Size() == t {
      SealCore(c'.st, w.plain[d.id := d.vec], w.added[d.id := d.vec]);
      SealMirror(c');
    }
  }

  lemma {:induction false} FlushAddKeepsInv(w: World, t: nat)
    requires Inv(w, t) && Enabled(w, DoFlushAdd)
    ensures Inv(Next(w, t, DoFlushAdd), t) && FlushAdd(w.c).cur == NO_TASK
  {
    EmitMirror(w.c);
  }

  lemma {:induction false} PairKeepsInv(w: World, t: nat, j: nat)
    requires Inv(w, t) && Enabled(w, DoPair(j))
    ensures Inv(Next(w, t, DoPair(j)), t)
  {
    PairKeepsShape(w.c, w.c.phase.level, j);
    PairListed(w.c.st, w.c.phase.level, j);
    PairCore(w.c.st, w.plain, w.added, w.c.phase.level, j);
    PairCollected(w.c, j);
    PairMirror(w.c, j);
  }

  lemma {:induction false} FlushPassKeepsInv(w: World, t: nat)
    requires Inv(w, t) && Enabled(w, DoFlushPass)
    ensures Inv(Next(w, t, DoFlushPass), t) && FlushPass(w.c).cur == NO_TASK
  {
    InsertedInLevels(w.c);
    SyncCore(w.c.st, w.plain, w.added, w.c.cur);
    FlushPassMirror(w.c);
  }

  lemma {:induction false} CompactKeepsInv(w: World, t: nat)
    requires Inv(w, t) && Enabled(w, DoCompact)
    ensures Inv(Next(w, t, DoCompact), t)
  {
    CompactCore(w.c.st, w.plain, w.added);
    CompactKeepsShape(w.c);
  }

  lemma {:induction false} EraseKeepsInv(w: World, t: nat, xs: set<DocId>)
    requires Inv(w, t) && Enabled(w, DoErase(xs))
    ensures Inv(Next(w, t, DoErase(xs)), t)
  {
    EraseCore(w.c.st, w.plain, w.added, xs);
    EraseMirror(w.c, xs);
  }

  /** Every step of every operation keeps the invariant. */
  lemma {:induction false} StepKeepsInv(w: World, t: nat, m: Step)
    requires Inv(w, t) && Enabled(w, m)
    ensures Inv(Next(w, t, m), t)
  {
    match m
    case DoPut(d) => PutKeepsInv(w, t, d);
    case DoFlushAdd => FlushAddKeepsInv(w, t);
    case DoBegin =>
    case DoPair(j) => PairKeepsInv(w, t, j);
    case DoFlushPass => FlushPassKeepsInv(w, t);
    case DoCompact => CompactKeepsInv(w, t);
    case DoErase(xs) => EraseKeepsInv(w, t, xs);
  }

  // ------------------------------------------------------------------- sequences of steps

  ghost function StepFrom(t: nat): (World, Step) -> Option<World> {
    (w: World, m: Step) => if Enabled(w, m) then Some(Next(w, t, m)) else None
  }

  ghost predicate Runs(w: World, t: nat, ms: seq<Step>, w': World) {
    Traces.Runs(StepFrom(t), w, ms, w')
  }

  lemma {:induction false} RunsJoin(w: World, t: nat, ms: seq<Step>, w': World, ns: seq<Step>, w'': World)
    requires Runs(w, t, ms, w') && Runs(w', t, ns, w'')
    ensures Runs(w, t, ms + ns, w'')
  {
    Traces.Join(StepFrom(t), w, ms, w', ns, w'');
  }

  lemma {:induction false} RunsOne(w: World, t: nat, m: Step)
    requires Enabled(w, m)
    ensures Runs(w, t, [m], Next(w, t, m))
  {
    Traces.One(StepFrom(t), w, m);
  }

  lemma {:induction false} RunsKeepInv(w: World, t: nat, ms: seq<Step>, w': World)
    requires Inv(w, t) && Runs(w, t, ms, w')
    ensures Inv(w', t)
    decreases |ms|
  {
    if ms != [] {
      StepKeepsInv(w, t, ms[0]);
      RunsKeepInv(Next(w, t, ms[0]), t, ms[1..], w');
    }
  }

  // ---------------------------------------------------------------- operations as runs

  ghost function Extend(m: Docs, docs: seq<Doc>): Docs
    decreases |docs|
  {
    if docs == [] then m else Extend(m[docs[0].id := docs[0].vec], docs[1..])
  }

  /** Each document id is new: not added before and not repeated in the batch. */
  ghost predicate AllNew(added: Docs, docs: seq<Doc>)
    decreases |docs|
  {
    docs == [] || (docs[0].id !in added && AllNew(added[docs[0].id := docs[0].vec], docs[1..]))
  }

  ghost predicate Idle(c: Config) {
    c.phase.Filling? && c.cur == NO_TASK
  }

  lemma {:induction false} PutAllRuns(w: World, t: nat, docs: seq<Doc>) returns (ms: seq<Step>)
    requires Shape(w.c) && w.c.phase.Filling? && AllNew(w.added, docs)
    ensures Runs(w, t, ms, World(PutAll(w.c, t, docs), Extend(w.plain, docs), Extend(w.added, docs)))
    ensures |ms| == |docs| && forall i :: 0 <= i < |ms| ==> ms[i] == DoPut(docs[i])
    decreases |docs|
  {
    if docs == [] {
      ms := [];
    } else {
      var m := DoPut(docs[0]);
      PutKeepsShape(w.c, t, docs[0]);
      var rest := PutAllRuns(Next(w, t, m), t, docs[1..]);
      ms := [m] + rest;
      assert ms[1..] == rest;
    }
  }

  /** What a step takes from the budget of `merge`. */
  ghost function Price(): (World, Step) -> nat {
    (w: World, m: Step) => if m.DoPair? && Enabled(w, m) then PairSize(w.c.st, w.c.phase.level, m.j) else 0
  }

  ghost function Cost(w: World, t: nat, ms: seq<Step>): nat {
    Traces.Cost(StepFrom(t), Price(), w, ms)
  }

  lemma {:induction false} CostJoin(w: World, t: nat, ms: seq<Step>, w': World, ns: seq<Step>)
    requires Runs(w, t, ms, w')
    ensures Cost(w, t, ms + ns) == Cost(w, t, ms) + Cost(w', t, ns)
  {
    Traces.CostJoin(StepFrom(t), Price(), w, ms, w', ns);
  }

  /** The steps are pair merges, lead from w to w', and cost what is missing from the budget. */
  ghost predicate Spends(w: World, t: nat, ms: seq<Step>, w': World, amount: nat, left: nat) {
    && Runs(w, t, ms, w')
    && Cost(w, t, ms) + left == amount
    && forall i :: 0 <= i < |ms| ==> ms[i].DoPair?
  }

  lemma {:induction false} PairThen(w: World, t: nat, m: Step, w1: World, ms: seq<Step>, w2: World, size: nat,
      amount: nat, left: nat)
    requires m.DoPair? && StepFrom(t)(w, m) == Some(w1) && Price()(w, m) == size <= amount
    requires Spends(w1, t, ms, w2, amount - size, left)
    ensures Spends(w, t, [m] + ms, w2, amount, left)
  {
    Traces.Cons(StepFrom(t), w, m, w1, ms, w2);
    Traces.CostCons(StepFrom(t), Price(), w, m, w1, ms);
  }

  lemma {:induction false} PairIsStep(w: World, t: nat, j: nat)
    requires Enabled(w, DoPair(j))
    ensures StepFrom(t)(w, DoPair(j)) == Some(w.(c := PairStep(w.c, j)))
    ensures Price()(w, DoPair(j)) == PairSize(w.c.st, w.c.phase.level, j)
  {
  }

  /** The inner loop is a run of pair merges, and what it spends is the sizes of the pairs it merges. */
  lemma {:induction false} PassRuns(w: World, t: nat, j: nat, amount: nat, end: Config, left: nat)
    returns (ms: seq<Step>)
    requires Shape(w.c) && w.c.phase.Passing? && w.c.phase.level < |w.c.st.levels|
    requires PassFrom(w.c, j, amount) == (end, left)
    ensures Spends(w, t, ms, w.(c := end), amount, left)
    decreases |w.c.st.levels[w.c.phase.level]| - j
  {
    var c, i := w.c, w.c.phase.level;
    if j + 1 >= |c.st.levels[i]| {
      ms := [];
    } else if !PairAt(c.st, i, j) || PairSize(c.st, i, j) > amount {
      ms := PassRuns(w, t, j + 1, amount, end, left);
    } else {
      var c', size := PairStep(c, j), PairSize(c.st, i, j);
      PairKeepsShape(c, i, j);
      PairIsStep(w, t, j);
      var rest := PassRuns(w.(c := c'), t, j + 1, amount - size, end, left);
      PairThen(w, t, DoPair(j), w.(c := c'), rest, w.(c := end), size, amount, left);
      ms := [DoPair(j)] + rest;
    }
  }

  /** One pass and the flush after it, as one run that costs what is missing from the budget. */
  lemma {:induction false} PassFlushRuns(w: World, t: nat, amount: nat, c': Config, left: nat) returns (ms: seq<Step>)
    requires Shape(w.c) && w.c.phase.Passing? && w.c.phase.level < |w.c.st.levels|
    requires PassFrom(w.c, 0, amount) == (c', left)
    ensures Runs(w, t, ms, w.(c := FlushPass(c'))) && Cost(w, t, ms) + left == amount
    ensures forall i :: 0 <= i < |ms| ==> ms[i].DoPair? || ms[i].DoFlushPass?
  {
    var pass := PassRuns(w, t, 0, amount, c', left);
    var w1 := w.(c := c');
    RunsOne(w1, t, DoFlushPass);
    RunsJoin(w, t, pass, w1, [DoFlushPass], w.(c := FlushPass(c')));
    CostJoin(w, t, pass, w1, [DoFlushPass]);
    FlushIsFree(w1, t);
    ms := pass + [DoFlushPass];
  }

  lemma {:induction false} FlushIsFree(w: World, t: nat)
    ensures Cost(w, t, [DoFlushPass]) == 0
  {
    assert [DoFlushPass][1..] == [];
  }

  /** The outer loop is a run of pair merges and flushes, and what it spends is the sizes of the pairs it merges. */
  lemma {:induction false} PassesRun(w: World, t: nat, amount: nat, end: Config, rest: nat) returns (ms: seq<Step>)
    requires Shape(w.c) && w.c.phase.Passing? && w.c.cur == NO_TASK && Passes(w.c, amount) == (end, rest)
    ensures Runs(w, t, ms, w.(c := end)) && Cost(w, t, ms) + rest == amount && end.cur == NO_TASK
    ensures forall i :: 0 <= i < |ms| ==> ms[i].DoPair? || ms[i].DoFlushPass?
    decreases |Bag(w.c.st.levels)|, |w.c.st.levels| - w.c.phase.level
  {
    if amount > 0 && w.c.phase.level < |w.c.st.levels| {
      var (c', left) := PassFrom(w.c, 0, amount);
      PassShrinks(w.c, 0, amount, c');
      FlushKeepsShape(c');
      var w2 := w.(c := FlushPass(c'));
      var first := PassFlushRuns(w, t, amount, c', left);
      var more := PassesRun(w2, t, left, end, rest);
      RunsJoin(w, t, first, w2, more, w.(c := end));
      CostJoin(w, t, first, w2, more);
      ms := first + more;
    } else {
      ms := [];
    }
  }

  lemma {:induction false} MergeRuns(w: World, t: nat, amount: nat) returns (ms: seq<Step>)
    requires Shape(w.c) && Idle(w.c)
    ensures Runs(w, t, ms, w.(c := Merge(w.c, amount))) && Idle(Merge(w.c, amount))
    ensures forall i :: 0 <= i < |ms| ==> !ms[i].DoErase?
  {
    var w1 := Next(w, t, DoBegin);
    RunsOne(w, t, DoBegin);
    var (c2, rest) := Passes(w1.c, amount);
    var passes := PassesRun(w1, t, amount, c2, rest);
    var w2 := w.(c := c2);
    RunsOne(w2, t, DoCompact);
    RunsJoin(w1, t, passes, w2, [DoCompact], w.(c := Merge(w.c, amount)));
    RunsJoin(w, t, [DoBegin], w1, passes + [DoCompact], w.(c := Merge(w.c, amount)));
    ms := [DoBegin] + (passes + [DoCompact]);
  }

  ghost function AddTo(w: World, t: nat, merging: bool, docs: seq<Doc>): World
    requires Shape(w.c)
  {
    World(Add(w.c, t, merging, docs), Extend(w.plain, docs), Extend(w.added, docs))
  }

  /** `add` is a run of erase-free steps. */
  lemma {:induction false} AddRuns(w: World, t: nat, merging: bool, docs: seq<Doc>) returns (ms: seq<Step>)
    requires Shape(w.c) && Idle(w.c) && AllNew(w.added, docs)
    ensures Runs(w, t, ms, AddTo(w, t, merging, docs))
    ensures forall i :: 0 <= i < |ms| ==> !ms[i].DoErase?
    ensures Idle(Add(w.c, t, merging, docs))
  {
    var puts := PutAllRuns(w, t, docs);
    PutAllKeepsShape(w.c, t, docs);
    var w1 := World(PutAll(w.c, t, docs), Extend(w.plain, docs), Extend(w.added, docs));
    PutAllPhase(w.c, t, docs);
    RunsOne(w1, t, DoFlushAdd);
    var w2 := Next(w1, t, DoFlushAdd);
    RunsJoin(w, t, puts, w1, [DoFlushAdd], w2);
    ms := puts + [DoFlushAdd];
    if merging {
      var rest := MergeRuns(w2, t, MERGE_AMOUNT);
      RunsJoin(w, t, ms, w2, rest, AddTo(w, t, merging, docs));
      ms := ms + rest;
    }
  }

  lemma {:induction false} PutAllPhase(c: Config, t: nat, docs: seq<Doc>)
    requires Shape(c)
    ensures PutAll(c, t, docs).phase == c.phase && PutAll(c, t, docs).cur.erased == c.cur.erased
    ensures PutAll(c, t, docs).outbox == c.outbox && PutAll(c, t, docs).mirror == c.mirror
    decreases |docs|
  {
    if docs != [] {
      PutKeepsShape(c, t, docs[0]);
      PutAllPhase(Put(c, t, docs[0]), t, docs[1..]);
    }
  }

  // --------------------------------------------------------------------- every run

  datatype Op = AddOp(docs: seq<Doc>) | EraseOp(xs: set<DocId>)

  const EMPTY_WORLD := World(Begin(), map[], map[])

  /** The documents of a run are all new when they are added. */
  ghost predicate Legal(added: Docs, ops: seq<Op>)
    decreases |ops|
  {
    ops == [] ||
    match ops[0]
    case AddOp(docs) => AllNew(added, docs) && Legal(Extend(added, docs), ops[1..])
    case EraseOp(_) => Legal(added, ops[1..])
  }

  ghost function Do(c: Config, t: nat, merging: bool, op: Op): (r: Config)
    requires Shape(c)
    ensures Shape(r)
  {
    match op
    case AddOp(docs) => AddKeepsShape(c, t, merging, docs); Add(c, t, merging, docs)
    case EraseOp(xs) => Erase(c, xs)
  }

  /** The segmented index over a run of operations. */
  ghost function DoAll(c: Config, t: nat, merging: bool, ops: seq<Op>): (r: Config)
    requires Shape(c)
    ensures Shape(r)
    decreases |ops|
  {
    if ops == [] then c else DoAll(Do(c, t, merging, ops[0]), t, merging, ops[1..])
  }

  /** The plain map over the same run. */
  ghost function PlainAll(m: Docs, ops: seq<Op>): Docs
    decreases |ops|
  {
    if ops == [] then m
    else match ops[0]
      case AddOp(docs) => PlainAll(Extend(m, docs), ops[1..])
      case EraseOp(xs) => PlainAll(m - xs, ops[1..])
  }

  ghost function AddedAll(m: Docs, ops: seq<Op>): Docs
    decreases |ops|
  {
    if ops == [] then m
    else match ops[0]
      case AddOp(docs) => AddedAll(Extend(m, docs), ops[1..])
      case EraseOp(_) => AddedAll(m, ops[1..])
  }

  lemma {:induction false} OpsRun(w: World, t: nat, merging: bool, ops: seq<Op>) returns (ms: seq<Step>)
    requires Shape(w.c) && Idle(w.c) && Legal(w.added, ops)
    ensures Runs(w, t, ms, World(DoAll(w.c, t, merging, ops), PlainAll(w.plain, ops), AddedAll(w.added, ops)))
    ensures Idle(DoAll(w.c, t, merging, ops))
    ensures (forall i :: 0 <= i < |ops| ==> ops[i].AddOp?) ==> forall i :: 0 <= i < |ms| ==> !ms[i].DoErase?
    decreases |ops|
  {
    if ops == [] {
      ms := [];
    } else {
      var end := World(DoAll(w.c, t, merging, ops), PlainAll(w.plain, ops), AddedAll(w.added, ops));
      match ops[0] {
        case AddOp(docs) =>
          var first := AddRuns(w, t, merging, docs);
          AddKeepsShape(w.c, t, merging, docs);
          var rest := OpsRun(AddTo(w, t, merging, docs), t, merging, ops[1..]);
          RunsJoin(w, t, first, AddTo(w, t, merging, docs), rest, end);
          ms := first + rest;
        case EraseOp(xs) =>
          RunsOne(w, t, DoErase(xs));
          var rest := OpsRun(Next(w, t, DoErase(xs)), t, merging, ops[1..]);
          RunsJoin(w, t, [DoErase(xs)], Next(w, t, DoErase(xs)), rest, end);
          ms := [DoErase(xs)] + rest;
      }
    }
  }

  lemma {:induction false} EmptyInv(t: nat)
    requires t >= 1
    ensures Inv(EMPTY_WORLD, t) && Idle(EMPTY_WORLD.c)
  {
    assert Bag(START.levels) == multiset{};
    assert LevelSet(START) == {};
    assert LevelNames(START) == {};
  }

  /** What a search over the list and the open segment can see. */
  ghost predicate Serves(st: State, x: DocId, v: Vector) {
    exists h: nat :: Reads(st, h) && Holds(st.heap, h, x) && st.heap[h].live[x] == v
  }

  ghost predicate Reads(st: State, h: nat) {
    h in st.segments || h == st.last
  }

  lemma {:induction false} ServesPlain(st: State, plain: Docs, lv: set<nat>, x: DocId, v: Vector)
    requires Faithful(st.heap, st.segments, st.last, plain) && Complete(st.heap, lv, st.last, plain)
    requires forall h :: h in lv ==> h in st.segments
    ensures Serves(st, x, v) <==> x in plain && plain[x] == v
  {
    if x in plain && plain[x] == v {
      var h: nat := st.last;
      if !Holds(st.heap, st.last, x) {
        h :| h in lv && Holds(st.heap, h, x);
      }
      assert Reads(st, h);
      assert SubMap(st.heap[h].live, plain);
    }
  }

  /** The main result: after any run of adds and erases, whatever merges they set off, the index serves exactly
      the documents added and not erased, and every clause of the invariant holds. */
  lemma {:induction false} EveryRunServesThePlainMap(t: nat, merging: bool, ops: seq<Op>)
    requires t >= 1 && Legal(map[], ops)
    ensures
      var c := DoAll(Begin(), t, merging, ops);
      && Inv(World(c, PlainAll(map[], ops), AddedAll(map[], ops)), t)
      && Idle(c)
      && forall x, v :: Serves(c.st, x, v) <==> x in PlainAll(map[], ops) && PlainAll(map[], ops)[x] == v
  {
    EmptyInv(t);
    var ms := OpsRun(EMPTY_WORLD, t, merging, ops);
    var w := World(DoAll(Begin(), t, merging, ops), PlainAll(map[], ops), AddedAll(map[], ops));
    RunsKeepInv(EMPTY_WORLD, t, ms, w);
    forall x, v ensures Serves(w.c.st, x, v) <==> x in w.plain && w.plain[x] == v {
      ServesPlain(w.c.st, w.plain, LevelSet(w.c.st), x, v);
    }
  }
}
