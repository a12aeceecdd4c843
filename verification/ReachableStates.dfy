/** What the levels, the list and the callbacks look like in every reachable state. */
module ReachableStates {
  import opened Levels
  import opened IndexModel
  import opened IndexInvariant
  import opened IndexSteps
  import opened IndexRuns

  ghost predicate Taken(levels: LevelTable, i: int, j: int) {
    0 <= i < |levels| && 0 <= j < |levels[i]| && levels[i][j].Some?
  }

  /** The slots of the levels hold segments with pairwise disjoint documents, each of them listed. */
  ghost predicate Disjoint(st: State) {
    && (forall i, j :: Taken(st.levels, i, j) ==>
      st.levels[i][j].value < |st.heap| && st.levels[i][j].value in st.segments)
    && (forall i, j, a, b :: Taken(st.levels, i, j) && Taken(st.levels, a, b) && (i != a || j != b) ==>
          st.heap[st.levels[i][j].value].known !! st.heap[st.levels[a][b].value].known)
  }

  /** One slot serves all the live documents of the entry. */
  ghost predicate ServedBySlot(st: State, h: nat) {
    exists i, j :: Taken(st.levels, i, j) && CoveredBy(st.heap, h, st.levels[i][j].value)
  }

  lemma {:induction false} SlotsApart(w: World, t: nat)
    requires Inv(w, t)
    ensures Disjoint(w.c.st)
  {
    var st := w.c.st;
    forall i, j | Taken(st.levels, i, j)
      ensures st.levels[i][j].value in LevelSet(st) && st.levels[i][j].value < |st.heap| &&
        st.levels[i][j].value in st.segments
    {
      InBag(st.levels, i, j);
    }
    forall i, j, a, b | Taken(st.levels, i, j) && Taken(st.levels, a, b) && (i != a || j != b)
      ensures st.heap[st.levels[i][j].value].known !! st.heap[st.levels[a][b].value].known
    {
      SlotsDiffer(st.levels, i, j, a, b);
    }
  }

  lemma {:induction false} ListCovered(w: World, t: nat, h: nat)
    requires Inv(w, t) && h in w.c.st.segments
    ensures ServedBySlot(w.c.st, h)
  {
    var st := w.c.st;
    assert HasCover(st.heap, LevelSet(st), h);
    var l :| l in LevelSet(st) && CoveredBy(st.heap, h, l);
    var i, j := BagAt(st.levels, l);
    assert Taken(st.levels, i, j);
  }

  /** In every reachable state the levels hold disjoint documents and are listed, every listed segment is served by
      one of them, the counter counts them, and a subscriber that applied every callback when it was made holds
      exactly the names in the levels. */
  lemma {:induction false} LevelsListAndCallbacksAgree(t: nat, merging: bool, ops: seq<Op>)
    requires t >= 1 && Legal(map[], ops)
    ensures
      var c := DoAll(Begin(), t, merging, ops);
      && Disjoint(c.st)
      && (forall h :: h in c.st.segments ==> ServedBySlot(c.st, h))
      && c.st.counter == |Bag(c.st.levels)|
      && c.mirror == LevelNames(c.st)
  {
    EveryRunServesThePlainMap(t, merging, ops);
    var w := World(DoAll(Begin(), t, merging, ops), PlainAll(map[], ops), AddedAll(map[], ops));
    SlotsApart(w, t);
    forall h | h in w.c.st.segments ensures ServedBySlot(w.c.st, h) {
      ListCovered(w, t, h);
    }
    IdleMirror(w.c);
  }

  lemma {:induction false} IdleMirror(c: Config)
    requires Mirrored(c) && Idle(c)
    ensures c.mirror == LevelNames(c.st)
  {
    assert CurNames(c) == {} && NameSet(c.cur.erased) == {};
  }
}
