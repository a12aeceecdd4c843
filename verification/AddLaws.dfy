/** Laws of `add` and `merge`: what filling seals, that batches may be split, and how a merge spends its budget. */
module AddLaws {
  import opened Prelude
  import opened Levels
  import opened IndexModel
  import opened IndexSteps
  import opened IndexRuns

  // -------------------------------------------------------------------- filling

  lemma {:induction false} PutAllAppend(c: Config, t: nat, xs: seq<Doc>, ys: seq<Doc>)
    requires Shape(c)
    ensures Shape(PutAll(c, t, xs))
    ensures PutAll(c, t, xs + ys) == PutAll(PutAll(c, t, xs), t, ys)
    decreases |xs|
  {
    PutAllKeepsShape(c, t, xs);
    if xs == [] {
      assert xs + ys == ys;
    } else {
      PutKeepsShape(c, t, xs[0]);
      PutAllAppend(Put(c, t, xs[0]), t, xs[1..], ys);
      assert (xs + ys)[0] == xs[0] && (xs + ys)[1..] == xs[1..] + ys;
    }
  }

  lemma {:induction false} PutAllIgnoresCalls(c: Config, d: Config, t: nat, docs: seq<Doc>)
    requires Shape(c) && Shape(d) && c.st == d.st
    ensures PutAll(c, t, docs).st == PutAll(d, t, docs).st
    decreases |docs|
  {
    if docs != [] {
      PutKeepsShape(c, t, docs[0]);
      PutKeepsShape(d, t, docs[0]);
      PutAllIgnoresCalls(Put(c, t, docs[0]), Put(d, t, docs[0]), t, docs[1..]);
    }
  }

  /** With merging off, one call and two calls leave the same index: segments, names, levels and open segment. */
  lemma {:induction false} SplittingAnAdd(c: Config, t: nat, xs: seq<Doc>, ys: seq<Doc>)
    requires Shape(c)
    ensures Shape(Add(c, t, false, xs))
    ensures Add(c, t, false, xs + ys).st == Add(Add(c, t, false, xs), t, false, ys).st
  {
    PutAllAppend(c, t, xs, ys);
    AddKeepsShape(c, t, false, xs);
    PutAllIgnoresCalls(PutAll(c, t, xs), Add(c, t, false, xs), t, ys);
  }

  /** From c to c', n documents went in, of which, with those that were open, `total` were sealed. */
  ghost predicate Counted(c: Config, c': Config, n: nat, total: nat) {
    && c.st.last < |c.st.heap| && c'.st.last < |c'.st.heap|
    && c.st.heap[c.st.last].Size() + n == total + c'.st.heap[c'.st.last].Size()
    && c'.st.sz == c.st.sz + total
  }

  /** The sealed segments are listed in order, each of exactly t live documents, and handed to the callback. */
  ghost predicate Handed(c: Config, c': Config, t: nat, k: nat) {
    && c.st.segments <= c'.st.segments
    && |c'.st.segments| == |c.st.segments| + k
    && (forall i :: |c.st.segments| <= i < |c'.st.segments| ==>
          c'.st.segments[i] < |c'.st.heap| && c'.st.heap[c'.st.segments[i]].Size() == t)
    && c'.cur.inserted == c.cur.inserted + c'.st.segments[|c.st.segments|..]
  }

  /** The open segment is not full and holds none of the documents, which are distinct. */
  ghost predicate Room(c: Config, t: nat, docs: seq<Doc>) {
    && c.st.last < |c.st.heap|
    && c.st.heap[c.st.last].Size() < t
    && (forall d :: d in docs ==> d.id !in c.st.heap[c.st.last].live)
    && (forall i, j :: 0 <= i < j < |docs| ==> docs[i].id != docs[j].id)
  }

  lemma {:induction false} PutFills(c: Config, t: nat, docs: seq<Doc>) returns (i: nat)
    requires docs != [] && Room(c, t, docs)
    ensures i <= 1 && Counted(c, Put(c, t, docs[0]), 1, if i == 0 then 0 else t) && Handed(c, Put(c, t, docs[0]), t, i)
    ensures Room(Put(c, t, docs[0]), t, docs[1..])
    ensures i == 1 ==> Put(c, t, docs[0]).st.segments[|c.st.segments|] == c.st.last != Put(c, t, docs[0]).st.last
  {
    var d, live := docs[0], c.st.heap[c.st.last].live;
    assert d in docs;
    assert live[d.id := d.vec].Keys == live.Keys + {d.id};
    assert |live[d.id := d.vec].Keys| == |live[d.id := d.vec]|;
    assert forall e :: e in docs[1..] ==> e in docs && e.id != d.id;
    i := |Put(c, t, d).st.segments| - |c.st.segments|;
  }

  lemma {:induction false} PutTouchesLast(c: Config, t: nat, d: Doc, h: nat)
    requires c.st.last < |c.st.heap| && h < |c.st.heap| && h != c.st.last
    ensures |c.st.heap| <= |Put(c, t, d).st.heap| && Put(c, t, d).st.heap[h] == c.st.heap[h]
    ensures h != Put(c, t, d).st.last
  {
  }

  lemma {:induction false} HandedJoin(c: Config, c1: Config, c': Config, t: nat, i: nat, k: nat)
    requires Handed(c, c1, t, i) && Handed(c1, c', t, k) && i <= 1
    requires i == 1 ==> c1.st.segments[|c.st.segments|] < |c'.st.heap|
    requires i == 1 ==> c'.st.heap[c1.st.segments[|c.st.segments|]] == c1.st.heap[c1.st.segments[|c.st.segments|]]
    ensures Handed(c, c', t, i + k)
  {
    var n, n1 := |c.st.segments|, |c1.st.segments|;
    TailJoin(c1.st.segments, c'.st.segments, n);
    forall a | n <= a < |c'.st.segments|
      ensures c'.st.segments[a] < |c'.st.heap| && c'.st.heap[c'.st.segments[a]].Size() == t
    {
      if a < n1 {
        assert a == n && c'.st.segments[a] == c1.st.segments[n];
      }
    }
  }

  lemma {:induction false} TailJoin<T>(s: seq<T>, longer: seq<T>, n: nat)
    requires n <= |s| && s <= longer
    ensures longer[n..] == s[n..] + longer[|s|..]
  {
    assert longer == s + longer[|s|..];
  }

  lemma {:induction false} CountedJoin(c: Config, c1: Config, c': Config, t: nat, n: nat, i: nat, k: nat)
    requires i <= 1 && Counted(c, c1, 1, if i == 0 then 0 else t) && Counted(c1, c', n, k * t)
    ensures Counted(c, c', n + 1, (i + k) * t)
  {
    assert (k + 1) * t == k * t + t;
  }

  ghost predicate Filled(c: Config, c': Config, t: nat, n: nat, k: nat) {
    Counted(c, c', n, k * t) && Handed(c, c', t, k)
  }

  /** One document took c to c1 and sealed i segments, none of which changes up to c'. */
  ghost predicate FirstIn(c: Config, c1: Config, c': Config, t: nat, i: nat) {
    && i <= 1 && Counted(c, c1, 1, if i == 0 then 0 else t) && Handed(c, c1, t, i)
    && (i == 1 ==>
          var h := c1.st.segments[|c.st.segments|];
          h < |c1.st.heap| && h < |c'.st.heap| && c'.st.heap[h] == c1.st.heap[h])
  }

  lemma {:induction false} FilledWithNothing(c: Config, t: nat)
    requires c.st.last < |c.st.heap|
    ensures Filled(c, c, t, 0, 0)
  {
    assert c.cur.inserted + c.st.segments[|c.st.segments|..] == c.cur.inserted;
  }

  lemma {:induction false} FilledJoin(c: Config, c1: Config, c': Config, t: nat, n: nat, i: nat, k: nat)
    requires FirstIn(c, c1, c', t, i) && Filled(c1, c', t, n, k)
    ensures Filled(c, c', t, n + 1, i + k)
  {
    CountedJoin(c, c1, c', t, n, i, k);
    HandedJoin(c, c1, c', t, i, k);
  }

  /** Filling seals segments of exactly t live documents, as many as the documents at hand make up. */
  lemma {:induction false} FillingSeals(c: Config, t: nat, docs: seq<Doc>, c': Config) returns (k: nat)
    requires Room(c, t, docs) && PutAll(c, t, docs) == c'
    ensures Filled(c, c', t, |docs|, k)
    decreases |docs|
  {
    if docs == [] {
      FilledWithNothing(c, t);
      k := 0;
    } else {
      var i, c1 := PutThenRest(c, t, docs, c');
      var k1 := FillingSeals(c1, t, docs[1..], c');
      FilledJoin(c, c1, c', t, |docs| - 1, i, k1);
      k := i + k1;
    }
  }

  /** The first document of a batch: the state after it, and whether it sealed a segment that the rest leaves alone. */
  lemma {:induction false} PutThenRest(c: Config, t: nat, docs: seq<Doc>, c': Config) returns (i: nat, c1: Config)
    requires docs != [] && Room(c, t, docs) && PutAll(c, t, docs) == c'
    ensures FirstIn(c, c1, c', t, i) && Room(c1, t, docs[1..]) && PutAll(c1, t, docs[1..]) == c'
  {
    c1 := Put(c, t, docs[0]);
    i := PutFills(c, t, docs);
    if i == 1 {
      SealedStays(c1, t, docs[1..], c.st.last);
    }
  }

  lemma {:induction false} NewIsDistinct(added: Docs, docs: seq<Doc>)
    requires AllNew(added, docs)
    ensures forall i :: 0 <= i < |docs| ==> docs[i].id !in added
    ensures forall i, j :: 0 <= i < j < |docs| ==> docs[i].id != docs[j].id
    decreases |docs|
  {
    if docs != [] {
      NewIsDistinct(added[docs[0].id := docs[0].vec], docs[1..]);
    }
  }

  /** In every reachable state an `add` has room: it never meets an empty batch. */
  lemma {:induction false} AddHasRoom(w: World, t: nat, docs: seq<Doc>)
    requires Inv(w, t) && AllNew(w.added, docs)
    ensures Room(w.c, t, docs)
  {
    NewIsDistinct(w.added, docs);
    assert w.c.st.heap[w.c.st.last].live.Keys <= w.added.Keys;
  }

  /** Filling never touches a segment that is already sealed. */
  lemma {:induction false} SealedStays(c: Config, t: nat, docs: seq<Doc>, h: nat)
    requires c.st.last < |c.st.heap| && h < |c.st.heap| && h != c.st.last
    ensures |c.st.heap| <= |PutAll(c, t, docs).st.heap|
    ensures PutAll(c, t, docs).st.heap[h] == c.st.heap[h]
    decreases |docs|
  {
    if docs != [] {
      PutTouchesLast(c, t, docs[0], h);
      SealedStays(Put(c, t, docs[0]), t, docs[1..], h);
    }
  }

  // -------------------------------------------------------------------- batches

  /** One round of the loop of `add`: a batch goes into the open segment, which is sealed if that fills it. */
  ghost function PutBatch(c: Config, t: nat, batch: seq<Doc>): Config
    requires c.st.last < |c.st.heap|
  {
    var c1 := c.(st := c.st.(heap := c.st.heap[c.st.last := AddDocs(c.st.heap[c.st.last], batch)]));
    if c1.st.heap[c1.st.last].Size() == t then SealStep(c1) else c1
  }

  /** The state with the batch in the open segment, before it is sealed. */
  ghost function Stuffed(st: State, batch: seq<Doc>): State
    requires st.last < |st.heap|
  {
    st.(heap := st.heap[st.last := AddDocs(st.heap[st.last], batch)])
  }

  lemma {:induction false} PutBatchIs(c: Config, t: nat, batch: seq<Doc>, c': Config)
    requires c.st.last < |c.st.heap| && PutBatch(c, t, batch) == c'
    ensures
      var st := Stuffed(c.st, batch);
      if st.heap[st.last].Size() == t
      then c'.st == SealLast(st) && c'.cur.inserted == c.cur.inserted + [st.last]
      else c'.st == st && c'.cur.inserted == c.cur.inserted
  {
  }

  /** A batch that fits the open segment does what its documents do one at a time. */
  lemma {:induction false} BatchIsPutAll(c: Config, t: nat, batch: seq<Doc>)
    requires batch != [] && Room(c, t, batch) && c.st.heap[c.st.last].Size() + |batch| <= t
    ensures PutBatch(c, t, batch) == PutAll(c, t, batch)
    decreases |batch|
  {
    var i := PutFills(c, t, batch);
    var c1 := Put(c, t, batch[0]);
    var s := AddDoc(c.st.heap[c.st.last], batch[0]);
    if |batch| == 1 {
      assert batch[1..] == [];
      assert AddDocs(c.st.heap[c.st.last], batch) == AddDocs(s, []) == s;
      assert PutAll(c, t, batch) == PutAll(c1, t, []) == c1;
    } else {
      assert c1 == c.(st := PutDoc(c.st, batch[0]));
      BatchIsPutAll(c1, t, batch[1..]);
      assert c1.st.heap[c1.st.last := AddDocs(s, batch[1..])] == c.st.heap[c.st.last := AddDocs(s, batch[1..])];
    }
  }

  lemma {:induction false} AllNewSplit(added: Docs, docs: seq<Doc>, n: nat)
    requires n <= |docs| && AllNew(added, docs)
    ensures AllNew(added, docs[..n]) && AllNew(Extend(added, docs[..n]), docs[n..])
    decreases n
  {
    if n > 0 {
      AllNewSplit(added[docs[0].id := docs[0].vec], docs[1..], n - 1);
      assert docs[..n][1..] == docs[1..][..n - 1];
      assert docs[n..] == docs[1..][n - 1..];
    } else {
      assert docs[..n] == [] && docs[n..] == docs;
    }
  }

  /** The world once the first i documents of a call are in. */
  ghost function After(w: World, t: nat, docs: seq<Doc>, i: nat): World
    requires Shape(w.c) && i <= |docs|
  {
    World(PutAll(w.c, t, docs[..i]), Extend(w.plain, docs[..i]), Extend(w.added, docs[..i]))
  }

  lemma {:induction false} AfterKeepsInv(w: World, t: nat, docs: seq<Doc>, i: nat)
    requires Inv(w, t) && w.c.phase.Filling? && AllNew(w.added, docs) && i <= |docs|
    ensures Inv(After(w, t, docs, i), t) && AllNew(After(w, t, docs, i).added, docs[i..])
  {
    AllNewSplit(w.added, docs, i);
    var ms := PutAllRuns(w, t, docs[..i]);
    RunsKeepInv(w, t, ms, After(w, t, docs, i));
  }

  /** The documents are distinct and none of the ids is known. */
  ghost predicate NewTo(known: set<DocId>, docs: seq<Doc>) {
    && (forall i, j :: 0 <= i < j < |docs| ==> docs[i].id != docs[j].id)
    && (forall d :: d in docs ==> d.id !in known)
  }

  lemma {:induction false} NewToLast(w: World, t: nat, batch: seq<Doc>)
    requires Inv(w, t) && AllNew(w.added, batch)
    ensures NewTo(w.c.st.heap[w.c.st.last].known, batch)
  {
    NewIsDistinct(w.added, batch);
    assert w.c.st.heap[w.c.st.last].known <= w.added.Keys;
    forall d | d in batch ensures d.id !in w.c.st.heap[w.c.st.last].known {
      var k :| 0 <= k < |batch| && batch[k] == d;
      assert batch[k].id !in w.added;
    }
  }

  /** The size of the next batch of `add`. */
  ghost function BatchSize(c: Config, t: nat, left: nat): int
    requires c.st.last < |c.st.heap|
  {
    Min(left, t - c.st.heap[c.st.last].Size())
  }

  /** The next batch is not empty and consists of new documents. */
  lemma {:induction false} BatchNew(w: World, t: nat, docs: seq<Doc>, i: nat, n: int)
    requires Inv(w, t) && i < |docs| && AllNew(w.added, docs[i..]) && n == BatchSize(w.c, t, |docs| - i)
    ensures 0 < n <= |docs| - i && AllNew(w.added, docs[i..i + n])
  {
    AllNewSplit(w.added, docs[i..], n);
    assert docs[i..][..n] == docs[i..i + n];
  }

  /** A batch of new documents that fits adds them as one at a time would. */
  lemma {:induction false} BatchFits(w: World, t: nat, batch: seq<Doc>)
    requires Inv(w, t) && AllNew(w.added, batch) && batch != [] && w.c.st.heap[w.c.st.last].Size() + |batch| <= t
    ensures NewTo(w.c.st.heap[w.c.st.last].known, batch)
    ensures PutBatch(w.c, t, batch) == PutAll(w.c, t, batch)
  {
    NewToLast(w, t, batch);
    AddHasRoom(w, t, batch);
    BatchIsPutAll(w.c, t, batch);
  }

  lemma {:induction false} AfterMore(w: World, t: nat, docs: seq<Doc>, i: nat, n: nat)
    requires Shape(w.c) && i + n <= |docs|
    ensures PutAll(After(w, t, docs, i).c, t, docs[i..i + n]) == After(w, t, docs, i + n).c
  {
    PutAllAppend(w.c, t, docs[..i], docs[i..i + n]);
    assert docs[..i + n] == docs[..i] + docs[i..i + n];
  }

  /** A round of the loop takes the call as many documents on as its batch holds. */
  lemma {:induction false} BatchRound(w: World, t: nat, docs: seq<Doc>, i: nat, w1: World, n: int)
    requires Inv(w, t) && w.c.phase.Filling? && AllNew(w.added, docs) && i < |docs|
    requires w1 == After(w, t, docs, i) && n == BatchSize(w1.c, t, |docs| - i)
    ensures 0 < n <= |docs| - i && NewTo(w1.c.st.heap[w1.c.st.last].known, docs[i..i + n])
    ensures PutBatch(w1.c, t, docs[i..i + n]) == After(w, t, docs, i + n).c
  {
    AfterKeepsInv(w, t, docs, i);
    BatchNew(w1, t, docs, i, n);
    BatchFits(w1, t, docs[i..i + n]);
    AfterMore(w, t, docs, i, n);
  }

  // --------------------------------------------------------------------- merging

  /** Along a run, no merge makes a segment of more than `bound` live documents. */
  ghost predicate ProductsWithin(w: World, t: nat, ms: seq<Step>, bound: nat)
    decreases |ms|
  {
    ms == [] || !Enabled(w, ms[0]) ||
    (ProductWithin(w, t, ms[0], bound) && ProductsWithin(Next(w, t, ms[0]), t, ms[1..], bound))
  }

  ghost predicate ProductWithin(w: World, t: nat, m: Step, bound: nat)
    requires Enabled(w, m)
  {
    m.DoPair? ==> Next(w, t, m).c.st.heap[w.c.st.levels[w.c.phase.level][m.j].value].Size() <= bound
  }

  lemma {:induction false} CostBoundsProducts(w: World, t: nat, ms: seq<Step>, w': World, bound: nat)
    requires Inv(w, t) && Runs(w, t, ms, w') && Cost(w, t, ms) <= bound
    ensures ProductsWithin(w, t, ms, bound)
    decreases |ms|
  {
    if ms != [] {
      var m := ms[0];
      StepKeepsInv(w, t, m);
      if m.DoPair? {
        PairSizeAdds(w.c.st, w.plain, w.added, w.c.phase.level, m.j);
      }
      CostBoundsProducts(Next(w, t, m), t, ms[1..], w', bound);
    }
  }

  ghost function Pairs(ms: seq<Step>): nat {
    if ms == [] then 0 else (if ms[0].DoPair? then 1 else 0) + Pairs(ms[1..])
  }

  lemma {:induction false} PairsCount(w: World, t: nat, ms: seq<Step>, w': World)
    requires Runs(w, t, ms, w') && forall i :: 0 <= i < |ms| ==> ms[i].DoPair? || ms[i].DoFlushPass?
    ensures w'.c.st.counter == w.c.st.counter - Pairs(ms)
    decreases |ms|
  {
    if ms != [] {
      PairsCount(Next(w, t, ms[0]), t, ms[1..], w');
    }
  }

  /** One call of `merge`: the sizes of the merged pairs and what is left add up to the budget, no product
      exceeds it, every merge takes one segment away, and no null slot survives. */
  lemma {:induction false} MergeSpendsItsBudget(w: World, t: nat, amount: nat) returns (ms: seq<Step>)
    requires Inv(w, t) && Idle(w.c)
    ensures
      var w1 := w.(c := w.c.(phase := Passing(0)));
      var (c', left) := Passes(w1.c, amount);
      && Runs(w1, t, ms, w.(c := c'))
      && (forall i :: 0 <= i < |ms| ==> ms[i].DoPair? || ms[i].DoFlushPass?)
      && Cost(w1, t, ms) + left == amount
      && ProductsWithin(w1, t, ms, amount)
      && Merge(w.c, amount).st.counter == |Bag(Merge(w.c, amount).st.levels)| == |Bag(w.c.st.levels)| - Pairs(ms)
      && NoNulls(Merge(w.c, amount).st.levels)
  {
    var w1 := Next(w, t, DoBegin);
    StepKeepsInv(w, t, DoBegin);
    var (c2, rest) := Passes(w1.c, amount);
    ms := PassesRun(w1, t, amount, c2, rest);
    var w2 := w.(c := c2);
    CostBoundsProducts(w1, t, ms, w2, amount);
    PairsCount(w1, t, ms, w2);
    RunsKeepInv(w1, t, ms, w2);
    StepKeepsInv(w2, t, DoCompact);
    CompactedBag(w2.c.st.levels);
  }
}
