/** How big the segments of a level are, and so how few levels there can be. */
module LevelSizes {
  import opened Prelude
  import opened Levels
  import opened IndexModel
  import opened IndexSteps
  import opened IndexRuns

  /** No segment of level i exceeds 2^(i+1) live documents. */
  ghost predicate AtMost(st: State) {
    forall i, j :: 0 <= i < |st.levels| && 0 <= j < |st.levels[i]| && st.levels[i][j].Some? &&
                   st.levels[i][j].value < |st.heap| ==>
      st.heap[st.levels[i][j].value].Size() <= Pow2(i + 1)
  }

  /** Every segment of level i exceeds 2^i live documents. */
  ghost predicate MoreThan(st: State) {
    forall i, j :: 0 <= i < |st.levels| && 0 <= j < |st.levels[i]| && st.levels[i][j].Some? &&
                   st.levels[i][j].value < |st.heap| ==>
      st.heap[st.levels[i][j].value].Size() > Pow2(i)
  }

  /** The top level is never empty. */
  ghost predicate TopUsed(levels: LevelTable) {
    levels != [] ==> Used(levels[|levels| - 1])
  }

  ghost predicate Used(level: seq<Slot>) {
    exists j :: 0 <= j < |level| && level[j].Some?
  }

  // ------------------------------------------------------------------ the top level

  lemma {:induction false} PlaceTop(levels: LevelTable, h: nat, size: nat)
    requires TopUsed(levels)
    ensures TopUsed(Place(levels, h, size))
  {
    var lv, r := LevelFor(size), Place(levels, h, size);
    var top := |r| - 1;
    if |r| > |levels| || top == lv {
      assert top == lv;
      assert r[top][|r[top]| - 1] == Some(h);
    } else {
      assert r[top] == levels[top];
    }
  }

  lemma {:induction false} PromoteTop(levels: LevelTable, i: nat, j: nat)
    requires i < |levels| && j + 1 < |levels[i]| && levels[i][j].Some? && TopUsed(levels)
    ensures TopUsed(Promote(levels, i, j))
  {
    var r := Promote(levels, i, j);
    var top := |r| - 1;
    if top == i + 1 {
      assert r[top][|r[top]| - 1] == levels[i][j];
    } else {
      assert r[top] == levels[top];
    }
  }

  lemma {:induction false} DropNullsHas(level: seq<Slot>, j: nat)
    requires j < |level| && level[j].Some?
    ensures level[j] in DropNulls(level)
    decreases |level|
  {
    var n := |level| - 1;
    if j < n {
      assert level[..n][j] == level[j];
      DropNullsHas(level[..n], j);
    }
  }

  lemma {:induction false} CompactedTop(levels: LevelTable)
    requires TopUsed(levels)
    ensures TopUsed(Compacted(levels))
  {
    if levels != [] {
      var top := |levels| - 1;
      var j :| 0 <= j < |levels[top]| && levels[top][j].Some?;
      DropNullsHas(levels[top], j);
      var k :| 0 <= k < |DropNulls(levels[top])| && DropNulls(levels[top])[k] == levels[top][j];
      assert Used(Compacted(levels)[top]);
    }
  }

  // ----------------------------------------------------------------- sealing and merging

  lemma {:induction false} SealSizes(st: State)
    requires HandlesOk(st)
    ensures AtMost(st) ==> AtMost(SealLast(st))
    ensures MoreThan(st) && st.heap[st.last].Size() >= 2 ==> MoreThan(SealLast(st))
  {
    var st' := SealLast(st);
    var lv := LevelFor(st.heap[st.last].Size());
    forall i, j | 0 <= i < |st'.levels| && 0 <= j < |st'.levels[i]|
      ensures (i == lv && st'.levels[i][j] == Some(st.last)) ||
              (i < |st.levels| && j < |st.levels[i]| && st'.levels[i][j] == st.levels[i][j])
    {
    }
  }

  lemma {:induction false} PairAtMost(st: State, i: nat, j: nat)
    requires Listed(st) && HandlesOk(st) && PairAt(st, i, j) && AtMost(st)
    requires MergePair(st, i, j).heap[st.levels[i][j].value].Size() == PairSize(st, i, j)
    ensures AtMost(MergePair(st, i, j))
  {
    var st' := MergePair(st, i, j);
    forall a, b | 0 <= a < |st'.levels| && 0 <= b < |st'.levels[a]| && st'.levels[a][b].Some? &&
                  st'.levels[a][b].value < |st.heap|
      ensures st'.heap[st'.levels[a][b].value].Size() <= Pow2(a + 1)
    {
      PairSlots(st, i, j, a, b);
    }
  }

  lemma {:induction false} PairMoreThan(st: State, i: nat, j: nat)
    requires Listed(st) && HandlesOk(st) && PairAt(st, i, j) && MoreThan(st)
    requires MergePair(st, i, j).heap[st.levels[i][j].value].Size() == PairSize(st, i, j)
    ensures MoreThan(MergePair(st, i, j))
  {
    var st' := MergePair(st, i, j);
    forall a, b | 0 <= a < |st'.levels| && 0 <= b < |st'.levels[a]| && st'.levels[a][b].Some? &&
                  st'.levels[a][b].value < |st.heap|
      ensures st'.heap[st'.levels[a][b].value].Size() > Pow2(a)
    {
      PairSlots(st, i, j, a, b);
    }
  }

  lemma {:induction false} PairSizes(st: State, plain: Docs, added: Docs, i: nat, j: nat)
    requires CoreInv(st, plain, added) && PairAt(st, i, j)
    ensures AtMost(st) ==> AtMost(MergePair(st, i, j))
    ensures MoreThan(st) ==> MoreThan(MergePair(st, i, j))
  {
    PairSizeAdds(st, plain, added, i, j);
    if AtMost(st) {
      PairAtMost(st, i, j);
    }
    if MoreThan(st) {
      PairMoreThan(st, i, j);
    }
  }

  /** After a merge a slot is the new one, or an old one that does not hold the merged object. */
  lemma {:induction false} PairSlots(st: State, i: nat, j: nat, a: nat, b: nat)
    requires Listed(st) && PairAt(st, i, j)
    requires
      var r := Promote(st.levels, i, j);
      a < |r| && b < |r[a]| && r[a][b].Some?
    ensures
      var r, l := Promote(st.levels, i, j), st.levels[i][j];
      || (a == i + 1 && r[a][b] == l)
      || (a < |st.levels| && b < |st.levels[a]| && r[a][b] == st.levels[a][b] && r[a][b] != l)
  {
    var r, l := Promote(st.levels, i, j), st.levels[i][j];
    if !(a == i + 1 && r[a][b] == l) {
      assert a < |st.levels| && b < |st.levels[a]| && r[a][b] == st.levels[a][b];
      SlotsDiffer(st.levels, i, j, a, b);
    }
  }

  lemma {:induction false} CompactSizes(st: State)
    ensures AtMost(st) ==> AtMost(st.(levels := Compacted(st.levels)))
    ensures MoreThan(st) ==> MoreThan(st.(levels := Compacted(st.levels)))
  {
    var st' := st.(levels := Compacted(st.levels));
    forall i, j | 0 <= i < |st'.levels| && 0 <= j < |st'.levels[i]| ensures st'.levels[i][j] in st.levels[i] {
    }
  }

  // ------------------------------------------------------------------------- every run

  ghost predicate Sized(st: State) {
    AtMost(st) && TopUsed(st.levels)
  }

  lemma {:induction false} StepKeepsSized(w: World, t: nat, m: Step)
    requires Inv(w, t) && Enabled(w, m) && Sized(w.c.st)
    ensures Sized(Next(w, t, m).c.st)
  {
    var st := w.c.st;
    match m
    case DoPut(d) =>
      PutSizes(w, d);
      var st1 := PutDoc(st, d);
      SealSizes(st1);
      PlaceTop(st1.levels, st1.last, st1.heap[st1.last].Size());
    case DoFlushAdd =>
    case DoBegin =>
    case DoPair(j) =>
      PairSizes(st, w.plain, w.added, w.c.phase.level, j);
      PromoteTop(st.levels, w.c.phase.level, j);
    case DoFlushPass => FlushKeepsShape(w.c);
    case DoCompact =>
      CompactSizes(st);
      CompactedTop(st.levels);
    case DoErase(xs) => EraseSizes(st, xs);
  }

  lemma {:induction false} PutSizes(w: World, d: Doc)
    requires Shape(w.c) && Listed(w.c.st)
    ensures HandlesOk(PutDoc(w.c.st, d))
    ensures AtMost(w.c.st) ==> AtMost(PutDoc(w.c.st, d))
    ensures MoreThan(w.c.st) ==> MoreThan(PutDoc(w.c.st, d))
  {
    var st := w.c.st;
    forall i, j | 0 <= i < |st.levels| && 0 <= j < |st.levels[i]| && st.levels[i][j].Some?
      ensures st.levels[i][j].value != st.last
    {
      InBag(st.levels, i, j);
    }
  }

  lemma {:induction false} EraseSizes(st: State, xs: set<DocId>)
    requires AtMost(st)
    ensures AtMost(EraseEverywhere(st, xs))
  {
    forall h | 0 <= h < |st.heap| ensures EraseEverywhere(st, xs).heap[h].Size() <= st.heap[h].Size() {
      var live := st.heap[h].live;
      SubsetCount((live - xs).Keys, live.Keys);
      assert |(live - xs).Keys| == |live - xs| && |live.Keys| == |live|;
    }
  }

  lemma {:induction false} StepKeepsMoreThan(w: World, t: nat, m: Step)
    requires Inv(w, t) && Enabled(w, m) && MoreThan(w.c.st) && t >= 2 && !m.DoErase?
    ensures MoreThan(Next(w, t, m).c.st)
  {
    match m
    case DoPut(d) =>
      PutSizes(w, d);
      SealSizes(PutDoc(w.c.st, d));
    case DoFlushAdd =>
    case DoBegin =>
    case DoPair(j) => PairSizes(w.c.st, w.plain, w.added, w.c.phase.level, j);
    case DoFlushPass => FlushKeepsShape(w.c);
    case DoCompact => CompactSizes(w.c.st);
  }

  lemma {:induction false} RunsKeepSized(w: World, t: nat, ms: seq<Step>, w': World)
    requires Inv(w, t) && Runs(w, t, ms, w') && Sized(w.c.st)
    ensures Sized(w'.c.st)
    decreases |ms|
  {
    if ms != [] {
      StepKeepsInv(w, t, ms[0]);
      StepKeepsSized(w, t, ms[0]);
      RunsKeepSized(Next(w, t, ms[0]), t, ms[1..], w');
    }
  }

  lemma {:induction false} RunsKeepMoreThan(w: World, t: nat, ms: seq<Step>, w': World)
    requires Inv(w, t) && Runs(w, t, ms, w') && MoreThan(w.c.st) && t >= 2
    requires forall i :: 0 <= i < |ms| ==> !ms[i].DoErase?
    ensures MoreThan(w'.c.st)
    decreases |ms|
  {
    if ms != [] {
      StepKeepsInv(w, t, ms[0]);
      StepKeepsMoreThan(w, t, ms[0]);
      RunsKeepMoreThan(Next(w, t, ms[0]), t, ms[1..], w');
    }
  }

  /** In every reachable state a segment of level i has at most 2^(i+1) documents. */
  lemma {:induction false} LevelsBoundSizes(t: nat, merging: bool, ops: seq<Op>)
    requires t >= 1 && Legal(map[], ops)
    ensures AtMost(DoAll(Begin(), t, merging, ops).st)
    ensures TopUsed(DoAll(Begin(), t, merging, ops).st.levels)
  {
    EmptyInv(t);
    var ms := OpsRun(EMPTY_WORLD, t, merging, ops);
    var w := World(DoAll(Begin(), t, merging, ops), PlainAll(map[], ops), AddedAll(map[], ops));
    RunsKeepSized(EMPTY_WORLD, t, ms, w);
  }

  /** The documents that are no longer in the open segment. */
  ghost function SealedDocs(st: State, added: Docs): Docs
    requires st.last < |st.heap|
  {
    added - st.heap[st.last].known
  }

  /** Without erases and with a threshold of at least two, levels are logarithmic in the sealed documents. */
  lemma {:induction false} FewLevels(t: nat, merging: bool, ops: seq<Op>)
    requires t >= 2 && Legal(map[], ops) && forall i :: 0 <= i < |ops| ==> ops[i].AddOp?
    ensures
      var st := DoAll(Begin(), t, merging, ops).st;
      && MoreThan(st)
      && (st.levels != [] ==> Pow2(|st.levels| - 1) < |SealedDocs(st, AddedAll(map[], ops))|)
  {
    EmptyInv(t);
    var w := World(DoAll(Begin(), t, merging, ops), PlainAll(map[], ops), AddedAll(map[], ops));
    var ms := OpsRun(EMPTY_WORLD, t, merging, ops);
    RunsKeepInv(EMPTY_WORLD, t, ms, w);
    RunsKeepMoreThan(EMPTY_WORLD, t, ms, w);
    LevelsBoundSizes(t, merging, ops);
    if w.c.st.levels != [] {
      TopIsSealed(w, t);
    }
  }

  lemma {:induction false} TopIsSealed(w: World, t: nat)
    requires Inv(w, t) && MoreThan(w.c.st) && TopUsed(w.c.st.levels) && w.c.st.levels != []
    ensures Pow2(|w.c.st.levels| - 1) < |SealedDocs(w.c.st, w.added)|
  {
    var st := w.c.st;
    var top := |st.levels| - 1;
    var j :| 0 <= j < |st.levels[top]| && st.levels[top][j].Some?;
    var h := st.levels[top][j].value;
    InBag(st.levels, top, j);
    assert st.heap[h].known !! st.heap[st.last].known;
    SubsetCount(st.heap[h].live.Keys, SealedDocs(st, w.added).Keys);
    assert |st.heap[h].live.Keys| == |st.heap[h].live|;
    assert |SealedDocs(st, w.added).Keys| == |SealedDocs(st, w.added)|;
  }
}
