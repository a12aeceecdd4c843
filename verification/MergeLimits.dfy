/** What `merge` leaves behind: unless its budget is used up, no two neighbours fit what is left of it any more. */
module MergeLimits {
  import opened Prelude
  import opened Levels
  import opened IndexModel
  import opened IndexSteps
  import opened IndexRuns
  import opened MergePasses

  // --------------------------------------------------------------------- after one pass

  ghost function LiveIn(heap: seq<Seg>, s: Slot): nat {
    if s.Some? && s.value < |heap| then |heap[s.value].live| else 0
  }

  /** Between the two slots there are only nulls. */
  ghost predicate OnlyNulls(row: seq<Slot>, p: nat, q: nat)
    requires q <= |row|
  {
    forall m :: p < m < q ==> row[m].None?
  }

  /** Any two segments of the level with only nulls between them have more than this many live documents together. */
  ghost predicate Crowded(heap: seq<Seg>, row: seq<Slot>, left: nat) {
    forall p, q {:trigger OnlyNulls(row, p, q)} ::
      0 <= p < q < |row| && row[p].Some? && row[q].Some? && OnlyNulls(row, p, q) ==>
      LiveIn(heap, row[p]) + LiveIn(heap, row[q]) > left
  }

  lemma {:induction false} SpentGrows(heap: seq<Seg>, row: seq<Slot>, js: seq<nat>, k: nat)
    requires Pairing(heap, row, js) && k <= |js|
    ensures Pairing(heap, row, js[..k]) && Spent(heap, row, js[..k]) <= Spent(heap, row, js)
    decreases |js|
  {
    if k < |js| {
      var n := |js| - 1;
      assert js[..n][..k] == js[..k];
      SpentGrows(heap, row, js[..n], k);
    } else {
      assert js[..k] == js;
    }
  }

  /** How many of the pairs come before slot p. */
  lemma {:induction false} PairsBefore(js: seq<nat>, p: nat) returns (k: nat)
    requires p !in js && forall a, b :: 0 <= a < b < |js| ==> js[a] + 1 < js[b]
    ensures TakenBy(js, k, p)
  {
    if js == [] || js[|js| - 1] < p {
      k := |js|;
    } else {
      var n := |js| - 1;
      k := PairsBefore(js[..n], p);
      assert js[n] > p;
    }
  }

  /** Slots that a pass passed over did not fit what it left. */
  lemma {:induction false} RefusedNow(heap: seq<Seg>, row: seq<Slot>, amount: nat, js: seq<nat>, rest: nat, p: nat)
    requires Greedy(heap, row, amount, js) && Spent(heap, row, js) + rest == amount
    requires Both(heap, row, p) && !Consumed(js, p)
    ensures Load(heap, row, p) > rest
  {
    forall a | 0 <= a < |js| ensures js[a] != p {
    }
    var k := PairsBefore(js, p);
    SpentGrows(heap, row, js, k);
    assert Refused(heap, row, amount, js, p);
  }

  /** A slot right before a pair that was taken did not fit with the pair's left segment, so it alone holds more than
      the pass left. */
  lemma {:induction false} BigAlone(heap: seq<Seg>, row: seq<Slot>, amount: nat, js: seq<nat>, rest: nat, p: nat)
    requires Greedy(heap, row, amount, js) && Spent(heap, row, js) + rest == amount
    requires Both(heap, row, p) && !Consumed(js, p) && Consumed(js, p + 1)
    ensures LiveIn(heap, row[p]) > rest
  {
    var a :| 0 <= a < |js| && (js[a] == p + 1 || js[a] + 1 == p + 1);
    assert js[a] == p + 1;
    SpentNext(heap, row, js, a);
    assert Refused(heap, row, amount, js, p) && TakenBy(js, a, p);
  }

  lemma {:induction false} SpentNext(heap: seq<Seg>, row: seq<Slot>, js: seq<nat>, a: nat)
    requires Pairing(heap, row, js) && a < |js|
    ensures Pairing(heap, row, js[..a]) && Spent(heap, row, js[..a]) + Load(heap, row, js[a]) <= Spent(heap, row, js)
  {
    SpentGrows(heap, row, js, a);
    SpentGrows(heap, row, js, a + 1);
    assert js[..a + 1][..a] == js[..a];
  }

  /** A segment the pass did not take is as it was. */
  lemma {:induction false} Untaken(heap: seq<Seg>, row: seq<Slot>, drawn: nat, js: seq<nat>, heap': seq<Seg>, p: nat)
    requires Pairing(heap, row, js) && HeapAfter(heap, row, drawn, js, heap') && RowDistinct(row)
    requires p < |row| && row[p].Some? && row[p].value < |heap| && !Consumed(js, p)
    ensures heap'[row[p].value] == heap[row[p].value]
  {
    forall a | 0 <= a < |js| ensures row[js[a]].value != row[p].value {
      assert Both(heap, row, js[a]) && js[a] != p;
    }
  }

  lemma {:induction false} PassCrowds(heap: seq<Seg>, row: seq<Slot>, drawn: nat, amount: nat, js: seq<nat>, rest: nat,
      heap': seq<Seg>, row': seq<Slot>)
    requires Greedy(heap, row, amount, js) && Spent(heap, row, js) + rest == amount && RowDistinct(row)
    requires HeapAfter(heap, row, drawn, js, heap') && RowAfter(row, js, row')
    requires forall p :: 0 <= p < |row| ==> row[p].Some? && row[p].value < |heap|
    ensures Crowded(heap', row', rest)
  {
    forall p, q | 0 <= p < q < |row'| && row'[p].Some? && row'[q].Some? && OnlyNulls(row', p, q)
      ensures LiveIn(heap', row'[p]) + LiveIn(heap', row'[q]) > rest
    {
      Untaken(heap, row, drawn, js, heap', p);
      Untaken(heap, row, drawn, js, heap', q);
      assert Both(heap, row, p);
      if q == p + 1 {
        RefusedNow(heap, row, amount, js, rest, p);
      } else {
        assert row'[p + 1].None?;
        BigAlone(heap, row, amount, js, rest, p);
      }
    }
  }

  // -------------------------------------------------------------------- after all passes

  /** The levels below i are crowded, and from i on there are no nulls. */
  ghost predicate Settled(heap: seq<Seg>, levels: LevelTable, i: nat, left: nat) {
    && (forall k :: 0 <= k < i && k < |levels| ==> Crowded(heap, levels[k], left))
    && (forall k, p :: i <= k < |levels| && 0 <= p < |levels[k]| ==> levels[k][p].Some?)
  }

  lemma {:induction false} CrowdedStill(heap: seq<Seg>, heap': seq<Seg>, row: seq<Slot>, amount: nat, left: nat)
    requires Crowded(heap, row, amount) && left <= amount
    requires forall p :: 0 <= p < |row| ==> LiveIn(heap', row[p]) == LiveIn(heap, row[p])
    ensures Crowded(heap', row, left)
  {
  }

  lemma {:induction false} LowerLevelsStay(st: State, i: nat, js: seq<nat>, heap': seq<Seg>, k: nat, p: nat)
    requires HandlesOk(st) && Listed(st) && i < |st.levels| && Pairing(st.heap, st.levels[i], js)
    requires HeapAfter(st.heap, st.levels[i], st.drawn, js, heap') && k < i && p < |st.levels[k]|
    ensures LiveIn(heap', st.levels[k][p]) == LiveIn(st.heap, st.levels[k][p])
  {
    var row := st.levels[i];
    if st.levels[k][p].Some? {
      forall a | 0 <= a < |js| ensures row[js[a]].value != st.levels[k][p].value {
        assert Both(st.heap, row, js[a]);
        SlotsDiffer(st.levels, k, p, i, js[a]);
      }
    }
  }

  lemma {:induction false} LevelDistinct(st: State, i: nat)
    requires Listed(st) && i < |st.levels|
    ensures RowDistinct(st.levels[i])
  {
    var row := st.levels[i];
    forall p, q | 0 <= p < q < |row| && row[p].Some? && row[q].Some? ensures row[p].value != row[q].value {
      SlotsDiffer(st.levels, i, p, i, q);
    }
  }

  lemma {:induction false} PassSettles(c: Config, amount: nat, js: seq<nat>, c': Config, left: nat)
    requires Shape(c) && Listed(c.st) && GreedyPass(c, amount, js, c', left)
    requires Settled(c.st.heap, c.st.levels, c.phase.level, amount)
    ensures Settled(c'.st.heap, c'.st.levels, c.phase.level + 1, left)
  {
    var st, i := c.st, c.phase.level;
    LevelDistinct(st, i);
    PassCrowds(st.heap, st.levels[i], st.drawn, amount, js, left, c'.st.heap, c'.st.levels[i]);
    forall k | 0 <= k < i ensures Crowded(c'.st.heap, c'.st.levels[k], left) {
      forall p | 0 <= p < |st.levels[k]|
        ensures LiveIn(c'.st.heap, st.levels[k][p]) == LiveIn(st.heap, st.levels[k][p])
      {
        LowerLevelsStay(st, i, js, c'.st.heap, k, p);
      }
      CrowdedStill(st.heap, c'.st.heap, st.levels[k], amount, left);
    }
    forall k, p | i + 1 <= k < |c'.st.levels| && 0 <= p < |c'.st.levels[k]| ensures c'.st.levels[k][p].Some? {
      ProductsAreSegments(st, i, js, c'.st.levels, k, p);
    }
  }

  lemma {:induction false} ProductsAreSegments(st: State, i: nat, js: seq<nat>, levels': LevelTable, k: nat, p: nat)
    requires i < |st.levels| && Pairing(st.heap, st.levels[i], js) && TableAfter(st.levels, i, js, levels')
    requires forall k, p :: i <= k < |st.levels| && 0 <= p < |st.levels[k]| ==> st.levels[k][p].Some?
    requires i + 1 <= k < |levels'| && p < |levels'[k]|
    ensures levels'[k][p].Some?
  {
    if k == i + 1 {
      var next := if i + 1 < |st.levels| then st.levels[i + 1] else [];
      if p >= |next| {
        assert levels'[k][p] == st.levels[i][js[p - |next|]];
      }
    }
  }

  /** One pass and its list edit. */
  lemma {:induction false} PassSettlesNext(w: World, t: nat, amount: nat, c': Config, left: nat)
    requires Inv(w, t) && w.c.phase.Passing? && w.c.cur == NO_TASK && w.c.phase.level < |w.c.st.levels|
    requires amount > 0 && PassFrom(w.c, 0, amount) == (c', left)
    requires Settled(w.c.st.heap, w.c.st.levels, w.c.phase.level, amount)
    ensures Shape(c') && c'.phase.Passing? && Inv(w.(c := FlushPass(c')), t)
    ensures Settled(c'.st.heap, c'.st.levels, c'.phase.level + 1, left)
  {
    PassShrinks(w.c, 0, amount, c');
    var ms := PassFlushRuns(w, t, amount, c', left);
    RunsKeepInv(w, t, ms, w.(c := FlushPass(c')));
    LevelDistinct(w.c.st, w.c.phase.level);
    var js := PassTakesGreedyPairs(w.c, amount, c', left);
    PassSettles(w.c, amount, js, c', left);
  }

  /** The outer loop: with budget left every level is crowded. */
  lemma {:induction false} PassesSettle(w: World, t: nat, amount: nat, end: Config, rest: nat)
    requires Inv(w, t) && w.c.phase.Passing? && w.c.cur == NO_TASK && Passes(w.c, amount) == (end, rest)
    requires Settled(w.c.st.heap, w.c.st.levels, w.c.phase.level, amount)
    ensures rest > 0 ==> forall k :: 0 <= k < |end.st.levels| ==> Crowded(end.st.heap, end.st.levels[k], rest)
    decreases |Bag(w.c.st.levels)|, |w.c.st.levels| - w.c.phase.level
  {
    if amount > 0 && w.c.phase.level < |w.c.st.levels| {
      var (c', left) := PassFrom(w.c, 0, amount);
      PassShrinks(w.c, 0, amount, c');
      PassSettlesNext(w, t, amount, c', left);
      FlushKeepsShape(c');
      PassesSettle(w.(c := FlushPass(c')), t, left, end, rest);
    }
  }

  // ------------------------------------------------------------------------ compaction

  /** Any two neighbours of the level have more than this many live documents together. */
  ghost predicate Tight(heap: seq<Seg>, row: seq<Slot>, left: nat) {
    forall p :: 0 <= p && p + 1 < |row| ==> LiveIn(heap, row[p]) + LiveIn(heap, row[p + 1]) > left
  }

  /** The last segment of a level, and only nulls behind it. */
  lemma {:induction false} LastKept(row: seq<Slot>) returns (q: nat)
    requires DropNulls(row) != []
    ensures q < |row| && row[q] == DropNulls(row)[|DropNulls(row)| - 1] && row[q].Some? && OnlyNulls(row, q, |row|)
  {
    var n := |row| - 1;
    if row[n].Some? {
      q := n;
    } else {
      q := LastKept(row[..n]);
      assert forall m :: q < m < n ==> row[m] == row[..n][m];
    }
  }

  lemma {:induction false} CrowdedPart(heap: seq<Seg>, row: seq<Slot>, left: nat, n: nat)
    requires Crowded(heap, row, left) && n <= |row|
    ensures Crowded(heap, row[..n], left)
  {
    var part := row[..n];
    forall p, q | 0 <= p < q < |part| && part[p].Some? && part[q].Some? && OnlyNulls(part, p, q)
      ensures LiveIn(heap, part[p]) + LiveIn(heap, part[q]) > left
    {
      assert forall m :: p < m < q ==> row[m] == part[m];
      assert OnlyNulls(row, p, q);
    }
  }

  lemma {:induction false} LastNeighbours(heap: seq<Seg>, row: seq<Slot>, left: nat, n: nat)
    requires Crowded(heap, row, left) && n + 1 == |row| && row[n].Some? && DropNulls(row[..n]) != []
    ensures LiveIn(heap, DropNulls(row[..n])[|DropNulls(row[..n])| - 1]) + LiveIn(heap, row[n]) > left
  {
    var q := LastKept(row[..n]);
    assert forall m :: q < m < n ==> row[m] == row[..n][m];
    assert OnlyNulls(row, q, n);
  }

  lemma {:induction false} TightMore(heap: seq<Seg>, kept: seq<Slot>, s: Slot, left: nat)
    requires Tight(heap, kept, left) && (kept != [] ==> LiveIn(heap, kept[|kept| - 1]) + LiveIn(heap, s) > left)
    ensures Tight(heap, kept + [s], left)
  {
  }

  lemma {:induction false} CompactedIsTight(heap: seq<Seg>, row: seq<Slot>, left: nat)
    requires Crowded(heap, row, left)
    ensures Tight(heap, DropNulls(row), left)
  {
    if row != [] {
      var n := |row| - 1;
      CrowdedPart(heap, row, left, n);
      CompactedIsTight(heap, row[..n], left);
      if row[n].Some? {
        if DropNulls(row[..n]) != [] {
          LastNeighbours(heap, row, left, n);
        }
        TightMore(heap, DropNulls(row[..n]), row[n], left);
      }
    }
  }

  // --------------------------------------------------------------------- documents moved up

  ghost function RowLoad(heap: seq<Seg>, row: seq<Slot>): nat {
    if row == [] then 0 else RowLoad(heap, row[..|row| - 1]) + LiveIn(heap, row[|row| - 1])
  }

  /** The levels of all live documents added up: a document in level i counts i. */
  ghost function Height(heap: seq<Seg>, levels: LevelTable): nat {
    if levels == [] then 0
    else
      var n := |levels| - 1;
      Height(heap, levels[..n]) + n * RowLoad(heap, levels[n])
  }

  lemma {:induction false} RowLoadSet(heap: seq<Seg>, row: seq<Slot>, j: nat, s: Slot)
    requires j < |row|
    ensures RowLoad(heap, row[j := s]) + LiveIn(heap, row[j]) == RowLoad(heap, row) + LiveIn(heap, s)
  {
    var n := |row| - 1;
    var row' := row[j := s];
    if j == n {
      assert row'[..n] == row[..n];
    } else {
      assert row'[..n] == row[..n][j := s];
      RowLoadSet(heap, row[..n], j, s);
    }
  }

  lemma {:induction false} RowLoadPush(heap: seq<Seg>, row: seq<Slot>, s: Slot)
    ensures RowLoad(heap, row + [s]) == RowLoad(heap, row) + LiveIn(heap, s)
  {
    assert (row + [s])[..|row|] == row;
  }

  lemma {:induction false} RowLoadSame(heap: seq<Seg>, heap': seq<Seg>, row: seq<Slot>)
    requires forall p :: 0 <= p < |row| ==> LiveIn(heap', row[p]) == LiveIn(heap, row[p])
    ensures RowLoad(heap', row) == RowLoad(heap, row)
  {
    if row != [] {
      RowLoadSame(heap, heap', row[..|row| - 1]);
    }
  }

  lemma {:induction false} HeightSame(heap: seq<Seg>, heap': seq<Seg>, levels: LevelTable)
    requires forall k, p :: 0 <= k < |levels| && 0 <= p < |levels[k]| ==>
      LiveIn(heap', levels[k][p]) == LiveIn(heap, levels[k][p])
    ensures Height(heap', levels) == Height(heap, levels)
  {
    if levels != [] {
      var n := |levels| - 1;
      HeightSame(heap, heap', levels[..n]);
      RowLoadSame(heap, heap', levels[n]);
    }
  }

  lemma {:induction false} HeightSet(heap: seq<Seg>, levels: LevelTable, i: nat, row: seq<Slot>)
    requires i < |levels|
    ensures Height(heap, levels[i := row]) + i * RowLoad(heap, levels[i]) ==
      Height(heap, levels) + i * RowLoad(heap, row)
  {
    var n := |levels| - 1;
    var levels' := levels[i := row];
    if i == n {
      assert levels'[..n] == levels[..n];
    } else {
      assert levels'[..n] == levels[..n][i := row];
      HeightSet(heap, levels[..n], i, row);
    }
  }

  lemma {:induction false} HeightPush(heap: seq<Seg>, levels: LevelTable)
    ensures Height(heap, levels + [[]]) == Height(heap, levels)
  {
    assert (levels + [[]])[..|levels|] == levels;
  }

  lemma {:induction false} HeightCompacted(heap: seq<Seg>, levels: LevelTable)
    ensures Height(heap, Compacted(levels)) == Height(heap, levels)
  {
    if levels != [] {
      var n := |levels| - 1;
      HeightCompacted(heap, levels[..n]);
      assert Compacted(levels)[..n] == Compacted(levels[..n]);
      RowLoadCompacted(heap, levels[n]);
    }
  }

  lemma {:induction false} RowLoadCompacted(heap: seq<Seg>, row: seq<Slot>)
    ensures RowLoad(heap, DropNulls(row)) == RowLoad(heap, row)
  {
    if row != [] {
      var n := |row| - 1;
      RowLoadCompacted(heap, row[..n]);
      if row[n].Some? {
        RowLoadPush(heap, DropNulls(row[..n]), row[n]);
      }
    }
  }

  lemma {:induction false} TimesSum(i: nat, a: nat, b: nat)
    ensures i * (a + b) == i * a + i * b
  {
  }

  lemma {:induction false} Cleared(heap: seq<Seg>, levels: LevelTable, i: nat, j: nat, size: nat)
    requires i < |levels| && j + 1 < |levels[i]| && LiveIn(heap, levels[i][j]) + LiveIn(heap, levels[i][j + 1]) == size
    ensures Height(heap, levels[i := levels[i][j := None][j + 1 := None]]) + i * size == Height(heap, levels)
  {
    var row := levels[i];
    var row' := row[j := None][j + 1 := None];
    RowLoadSet(heap, row, j, None);
    RowLoadSet(heap, row[j := None], j + 1, None);
    HeightSet(heap, levels, i, row');
    assert RowLoad(heap, row) == RowLoad(heap, row') + size;
    TimesSum(i, RowLoad(heap, row'), size);
  }

  lemma {:induction false} Lifted(heap: seq<Seg>, levels: LevelTable, i: nat, s: Slot, size: nat)
    requires i < |levels| && LiveIn(heap, s) == size
    ensures Height(heap, levels[i := levels[i] + [s]]) == Height(heap, levels) + i * size
  {
    var row := levels[i];
    RowLoadPush(heap, row, s);
    HeightSet(heap, levels, i, row + [s]);
    TimesSum(i, RowLoad(heap, row), size);
  }

  lemma {:induction false} ClearedApart(levels: LevelTable, i: nat, j: nat, cleared: LevelTable, k: nat, p: nat)
    requires forall h :: h in Bag(levels) ==> Bag(levels)[h] == 1
    requires i < |levels| && j + 1 < |levels[i]| && levels[i][j].Some?
    requires cleared == levels[i := levels[i][j := None][j + 1 := None]] && k < |cleared| && p < |cleared[k]|
    ensures cleared[k][p] != levels[i][j]
  {
    if cleared[k][p].Some? {
      SlotsDiffer(levels, i, j, k, p);
    }
  }

  lemma {:induction false} ClearedStays(st: State, plain: Docs, added: Docs, i: nat, j: nat, cleared: LevelTable)
    requires CoreInv(st, plain, added) && PairAt(st, i, j)
    requires cleared == st.levels[i := st.levels[i][j := None][j + 1 := None]]
    ensures Height(MergePair(st, i, j).heap, cleared) == Height(st.heap, cleared)
  {
    var heap' := MergePair(st, i, j).heap;
    forall k, p | 0 <= k < |cleared| && 0 <= p < |cleared[k]|
      ensures LiveIn(heap', cleared[k][p]) == LiveIn(st.heap, cleared[k][p])
    {
      ClearedApart(st.levels, i, j, cleared, k, p);
    }
    HeightSame(st.heap, heap', cleared);
  }

  lemma {:induction false} PushedUp(heap: seq<Seg>, cleared: LevelTable, i: nat, s: Slot, size: nat,
      levels': LevelTable)
    requires i < |cleared| && LiveIn(heap, s) == size
    requires
      var grown := if i + 1 == |cleared| then cleared + [[]] else cleared;
      levels' == grown[i + 1 := grown[i + 1] + [s]]
    ensures Height(heap, levels') == Height(heap, cleared) + i * size + size
  {
    var grown := if i + 1 == |cleared| then cleared + [[]] else cleared;
    HeightPush(heap, cleared);
    Lifted(heap, grown, i + 1, s, size);
    TimesSum(size, i, 1);
  }

  /** Merging a pair of level i moves its documents one level up. */
  lemma {:induction false} PairLifts(st: State, plain: Docs, added: Docs, i: nat, j: nat)
    requires CoreInv(st, plain, added) && PairAt(st, i, j)
    ensures
      var st' := MergePair(st, i, j);
      Height(st'.heap, st'.levels) == Height(st.heap, st.levels) + PairSize(st, i, j)
  {
    var st', size := MergePair(st, i, j), PairSize(st, i, j);
    var cleared := st.levels[i := st.levels[i][j := None][j + 1 := None]];
    Cleared(st.heap, st.levels, i, j, size);
    ClearedStays(st, plain, added, i, j, cleared);
    PairSizeAdds(st, plain, added, i, j);
    PushedUp(st'.heap, cleared, i, st.levels[i][j], size, st'.levels);
  }

  lemma {:induction false} StepLifts(w: World, t: nat, m: Step)
    requires Inv(w, t) && Enabled(w, m) && (m.DoPair? || m.DoFlushPass?)
    ensures
      var st, st' := w.c.st, Next(w, t, m).c.st;
      Height(st'.heap, st'.levels) == Height(st.heap, st.levels) + Price()(w, m)
  {
    if m.DoPair? {
      PairLifts(w.c.st, w.plain, w.added, w.c.phase.level, m.j);
    } else {
      FlushKeepsShape(w.c);
    }
  }

  /** What a run of merges costs is how many levels it moves documents up. */
  lemma {:induction false} CostIsLift(w: World, t: nat, ms: seq<Step>, w': World)
    requires Inv(w, t) && Runs(w, t, ms, w') && forall i :: 0 <= i < |ms| ==> ms[i].DoPair? || ms[i].DoFlushPass?
    ensures Height(w'.c.st.heap, w'.c.st.levels) == Height(w.c.st.heap, w.c.st.levels) + Cost(w, t, ms)
    decreases |ms|
  {
    if ms != [] {
      StepKeepsInv(w, t, ms[0]);
      StepLifts(w, t, ms[0]);
      CostIsLift(Next(w, t, ms[0]), t, ms[1..], w');
    }
  }

  // ----------------------------------------------------------------------- the whole merge

  /** How many levels documents have moved up from one state to another, all together. */
  ghost function Moved(before: State, after: State): int {
    Height(after.heap, after.levels) - Height(before.heap, before.levels)
  }

  /** Unless the documents moved up use up a budget of 200, any two neighbours of any level together have more live
      documents than is left of it. */
  ghost predicate Thorough(before: State, after: State) {
    && 0 <= Moved(before, after) <= 200
    && (Moved(before, after) < 200 ==>
          forall i :: 0 <= i < |after.levels| ==> Tight(after.heap, after.levels[i], 200 - Moved(before, after)))
  }

  lemma {:induction false} MergeSettles(w: World, t: nat)
    requires Inv(w, t) && Idle(w.c) && NoNulls(w.c.st.levels)
    ensures Thorough(w.c.st, Merge(w.c, MERGE_AMOUNT).st)
  {
    var w1 := Next(w, t, DoBegin);
    StepKeepsInv(w, t, DoBegin);
    var (c2, rest) := Passes(w1.c, MERGE_AMOUNT);
    PassesSettle(w1, t, MERGE_AMOUNT, c2, rest);
    var ms := PassesRun(w1, t, MERGE_AMOUNT, c2, rest);
    CostIsLift(w1, t, ms, w.(c := c2));
    HeightCompacted(c2.st.heap, c2.st.levels);
    if rest > 0 {
      forall i | 0 <= i < |c2.st.levels| ensures Tight(c2.st.heap, DropNulls(c2.st.levels[i]), rest) {
        CompactedIsTight(c2.st.heap, c2.st.levels[i], rest);
      }
    }
  }

  // -------------------------------------------------------------------- no nulls between calls

  lemma {:induction false} PutAllNoNulls(c: Config, t: nat, docs: seq<Doc>)
    requires Shape(c) && NoNulls(c.st.levels)
    ensures NoNulls(PutAll(c, t, docs).st.levels)
    decreases |docs|
  {
    if docs != [] {
      PutKeepsShape(c, t, docs[0]);
      PutAllNoNulls(Put(c, t, docs[0]), t, docs[1..]);
    }
  }

  lemma {:induction false} AddNoNulls(c: Config, t: nat, merging: bool, docs: seq<Doc>)
    requires Shape(c) && NoNulls(c.st.levels)
    ensures NoNulls(Add(c, t, merging, docs).st.levels)
  {
    PutAllNoNulls(c, t, docs);
    PutAllKeepsShape(c, t, docs);
    if merging {
      CompactedBag(Passes(FlushAdd(PutAll(c, t, docs)).(phase := Passing(0)), MERGE_AMOUNT).0.st.levels);
    }
  }

  lemma {:induction false} RunNoNulls(c: Config, t: nat, merging: bool, ops: seq<Op>)
    requires Shape(c) && NoNulls(c.st.levels)
    ensures NoNulls(DoAll(c, t, merging, ops).st.levels)
    decreases |ops|
  {
    if ops != [] {
      if ops[0].AddOp? {
        AddNoNulls(c, t, merging, ops[0].docs);
      }
      RunNoNulls(Do(c, t, merging, ops[0]), t, merging, ops[1..]);
    }
  }

  /** In every reachable state, an add with merging leaves no two neighbours that fit what is left of the budget of 200;
      the budget pays for every document moved up a level, beyond what the same add without merging does. */
  lemma {:induction false} AddIsThorough(t: nat, merging: bool, ops: seq<Op>, docs: seq<Doc>)
    requires t >= 1 && Legal(map[], ops) && AllNew(AddedAll(map[], ops), docs)
    ensures
      var c := DoAll(Begin(), t, merging, ops);
      && Thorough(Add(c, t, false, docs).st, Add(c, t, true, docs).st)
      && NoNulls(Add(c, t, true, docs).st.levels)
  {
    var c := DoAll(Begin(), t, merging, ops);
    var w := World(c, PlainAll(map[], ops), AddedAll(map[], ops));
    EveryRunServesThePlainMap(t, merging, ops);
    RunNoNulls(Begin(), t, merging, ops);
    AddNoNulls(c, t, false, docs);
    AddNoNulls(c, t, true, docs);
    var ms := AddRuns(w, t, false, docs);
    RunsKeepInv(w, t, ms, AddTo(w, t, false, docs));
    MergeSettles(AddTo(w, t, false, docs), t);
  }
}
