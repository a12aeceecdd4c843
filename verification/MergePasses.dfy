/** Which pairs one pass of `merge` over a level takes, told without the code: going from left to right, every two
    neighbours that are both there and together fit what is left of the budget. */
module MergePasses {
  import opened Prelude
  import opened Levels
  import opened IndexModel

  // ------------------------------------------------------------------------ the pairs

  /** Slots j and j + 1 of the level both hold a segment. */
  ghost predicate Both(heap: seq<Seg>, row: seq<Slot>, j: int) {
    && 0 <= j && j + 1 < |row| && row[j].Some? && row[j + 1].Some?
    && row[j].value < |heap| && row[j + 1].value < |heap|
  }

  /** The live documents of the two together. */
  ghost function Load(heap: seq<Seg>, row: seq<Slot>, j: int): nat
    requires Both(heap, row, j)
  {
    |heap[row[j].value].live| + |heap[row[j + 1].value].live|
  }

  /** Pairs of the level from left to right, no slot in two of them. */
  ghost predicate Pairing(heap: seq<Seg>, row: seq<Slot>, js: seq<nat>) {
    && (forall a :: 0 <= a < |js| ==> Both(heap, row, js[a]))
    && (forall a, b :: 0 <= a < b < |js| ==> js[a] + 1 < js[b])
  }

  ghost function Spent(heap: seq<Seg>, row: seq<Slot>, js: seq<nat>): nat
    requires Pairing(heap, row, js)
  {
    if js == [] then 0 else Spent(heap, row, js[..|js| - 1]) + Load(heap, row, js[|js| - 1])
  }

  /** The first k pairs are those before slot j. */
  ghost predicate TakenBy(js: seq<nat>, k: nat, j: int) {
    && k <= |js|
    && (forall a :: 0 <= a < k ==> js[a] < j)
    && (forall a :: k <= a < |js| ==> js[a] > j)
  }

  /** If slots j and j + 1 were both there and still untaken, and were not taken together, they did not fit what the
      pairs before them had left of the budget. */
  ghost predicate Refused(heap: seq<Seg>, row: seq<Slot>, amount: nat, js: seq<nat>, j: int)
    requires Pairing(heap, row, js)
  {
    Both(heap, row, j) && !Consumed(js, j) ==>
      forall k: nat :: TakenBy(js, k, j) ==> Load(heap, row, j) + Spent(heap, row, js[..k]) > amount
  }

  /** These are the pairs of a pass with this budget: they fit it, and nothing that would have fitted was passed
      over. */
  ghost predicate Greedy(heap: seq<Seg>, row: seq<Slot>, amount: nat, js: seq<nat>) {
    && Pairing(heap, row, js)
    && Spent(heap, row, js) <= amount
    && forall j :: Refused(heap, row, amount, js, j)
  }

  // ----------------------------------------------------------------------- the outcome

  /** Slot p belongs to one of the pairs. */
  ghost predicate Consumed(js: seq<nat>, p: int) {
    exists a :: 0 <= a < |js| && (js[a] == p || js[a] + 1 == p)
  }

  /** Both slots of every pair are null, the others as they were. */
  ghost predicate RowAfter(row: seq<Slot>, js: seq<nat>, row': seq<Slot>) {
    && |row'| == |row|
    && forall p {:trigger row'[p]} :: 0 <= p < |row| ==> row'[p] == if Consumed(js, p) then None else row[p]
  }

  /** The left segments of the pairs, in order. */
  ghost function Lefts(row: seq<Slot>, js: seq<nat>): seq<Slot>
    requires forall a :: 0 <= a < |js| ==> js[a] < |row|
  {
    seq(|js|, a requires 0 <= a < |js| => row[js[a]])
  }

  /** They stand behind what the next level held, and no other level changed. */
  ghost predicate TableAfter(levels: LevelTable, i: nat, js: seq<nat>, levels': LevelTable)
    requires i < |levels| && forall a :: 0 <= a < |js| ==> js[a] < |levels[i]|
  {
    && |levels'| == (if js != [] && i + 1 == |levels| then |levels| + 1 else |levels|)
    && RowAfter(levels[i], js, levels'[i])
    && (forall p :: 0 <= p < |levels| && p != i && p != i + 1 ==> levels'[p] == levels[p])
    && (i + 1 < |levels'| ==>
          levels'[i + 1] == (if i + 1 < |levels| then levels[i + 1] else []) + Lefts(levels[i], js))
  }

  /** The left object of pair a has absorbed the right one and bears the a-th new name; no other object changed. */
  ghost predicate HeapAfter(heap: seq<Seg>, row: seq<Slot>, drawn: nat, js: seq<nat>, heap': seq<Seg>)
    requires Pairing(heap, row, js)
  {
    && |heap'| == |heap|
    && (forall a :: 0 <= a < |js| ==>
          heap'[row[js[a]].value] == Absorb(heap[row[js[a]].value], heap[row[js[a] + 1].value], drawn + a))
    && (forall h {:trigger heap'[h]} :: 0 <= h < |heap| && (forall a :: 0 <= a < |js| ==> row[js[a]].value != h) ==>
          heap'[h] == heap[h])
  }

  /** The names given up, of each pair the right one first. */
  ghost function NamesGone(heap: seq<Seg>, row: seq<Slot>, js: seq<nat>): seq<SegId>
    requires Pairing(heap, row, js)
  {
    if js == [] then []
    else
      var j := js[|js| - 1];
      NamesGone(heap, row, js[..|js| - 1]) + [heap[row[j + 1].value].id, heap[row[j].value].id]
  }

  ghost function Products(heap: seq<Seg>, row: seq<Slot>, js: seq<nat>): seq<nat>
    requires Pairing(heap, row, js)
  {
    seq(|js|, a requires 0 <= a < |js| => row[js[a]].value)
  }

  /** What a pass over level i that takes these pairs makes of the index and of the callback under construction. */
  ghost predicate Passed(c: Config, i: nat, js: seq<nat>, c': Config)
    requires i < |c.st.levels| && Pairing(c.st.heap, c.st.levels[i], js)
  {
    var st, row := c.st, c.st.levels[i];
    && TableAfter(st.levels, i, js, c'.st.levels)
    && HeapAfter(st.heap, row, st.drawn, js, c'.st.heap)
    && c'.st == st.(heap := c'.st.heap, levels := c'.st.levels, drawn := st.drawn + |js|, counter := st.counter - |js|)
    && c' == c.(st := c'.st, cur := Announced(c.cur, st.heap, row, js))
  }

  /** The callback under construction with the names and products of these pairs. */
  ghost function Announced(cur: Task, heap: seq<Seg>, row: seq<Slot>, js: seq<nat>): Task
    requires Pairing(heap, row, js)
  {
    Task(cur.erased + NamesGone(heap, row, js), cur.inserted + Products(heap, row, js))
  }

  // ------------------------------------------------------------------- one turn of a pass

  /** No object sits in two slots of the level. */
  ghost predicate RowDistinct(row: seq<Slot>) {
    forall p, q :: 0 <= p < q < |row| && row[p].Some? && row[q].Some? ==> row[p].value != row[q].value
  }

  lemma {:induction false} PairingMore(heap: seq<Seg>, row: seq<Slot>, js: seq<nat>, j: nat)
    requires Pairing(heap, row, js) && Both(heap, row, j) && (forall a :: 0 <= a < |js| ==> js[a] + 1 < j)
    ensures Pairing(heap, row, js + [j])
    ensures Spent(heap, row, js + [j]) == Spent(heap, row, js) + Load(heap, row, j)
    ensures NamesGone(heap, row, js + [j]) ==
      NamesGone(heap, row, js) + [heap[row[j + 1].value].id, heap[row[j].value].id]
    ensures Products(heap, row, js + [j]) == Products(heap, row, js) + [row[j].value]
  {
    assert (js + [j])[..|js|] == js;
  }

  lemma {:induction false} RefusedStill(heap: seq<Seg>, row: seq<Slot>, amount: nat, js: seq<nat>, j: nat, p: int)
    requires Pairing(heap, row, js) && Pairing(heap, row, js + [j]) && p < j && Refused(heap, row, amount, js, p)
    ensures Refused(heap, row, amount, js + [j], p)
  {
    var js' := js + [j];
    if Both(heap, row, p) && !Consumed(js', p) {
      assert forall a :: 0 <= a < |js| ==> js'[a] == js[a];
      forall k: nat | TakenBy(js', k, p) ensures Load(heap, row, p) + Spent(heap, row, js'[..k]) > amount {
        assert js'[|js|] == j > p;
        assert js'[..k] == js[..k];
        assert forall a :: 0 <= a < |js| ==> js'[a] == js[a];
        assert TakenBy(js, k, p);
      }
    }
  }

  lemma {:induction false} RowTurn(row: seq<Slot>, js: seq<nat>, row': seq<Slot>, j: nat)
    requires RowAfter(row, js, row') && j + 1 < |row| && row'[j].Some? && row'[j + 1].Some?
    requires forall a :: 0 <= a < |js| ==> js[a] < j
    ensures forall a :: 0 <= a < |js| ==> js[a] + 1 < j
    ensures row[j] == row'[j] && row[j + 1] == row'[j + 1]
    ensures RowAfter(row, js + [j], row'[j := None][j + 1 := None])
  {
    assert !Consumed(js, j) && !Consumed(js, j + 1);
    var js', row'' := js + [j], row'[j := None][j + 1 := None];
    forall p | 0 <= p < |row| ensures row''[p] == if Consumed(js', p) then None else row[p] {
      GoneMore(js, j, p);
    }
  }

  lemma {:induction false} GoneMore(js: seq<nat>, j: nat, p: int)
    ensures Consumed(js + [j], p) <==> Consumed(js, p) || p == j || p == j + 1
  {
    var js' := js + [j];
    assert js'[|js|] == j;
    if a :| 0 <= a < |js| && (js[a] == p || js[a] + 1 == p) {
      assert js'[a] == js[a];
    }
  }

  lemma {:induction false} OthersTaken(heap: seq<Seg>, row: seq<Slot>, js: seq<nat>, j: nat)
    requires Pairing(heap, row, js) && RowDistinct(row) && Both(heap, row, j)
    requires forall a :: 0 <= a < |js| ==> js[a] + 1 < j
    ensures row[j].value != row[j + 1].value
    ensures forall a :: 0 <= a < |js| ==> row[js[a]].value != row[j].value && row[js[a]].value != row[j + 1].value
  {
    forall a | 0 <= a < |js| ensures row[js[a]].value != row[j].value && row[js[a]].value != row[j + 1].value {
      assert Both(heap, row, js[a]);
    }
  }

  lemma {:induction false} HeapTurn(heap: seq<Seg>, row: seq<Slot>, drawn: nat, js: seq<nat>, heap': seq<Seg>, j: nat,
      heap'': seq<Seg>)
    requires Pairing(heap, row, js) && HeapAfter(heap, row, drawn, js, heap') && RowDistinct(row)
    requires Both(heap, row, j) && Pairing(heap, row, js + [j]) && (forall a :: 0 <= a < |js| ==> js[a] + 1 < j)
    requires heap'' == heap'[row[j].value := Absorb(heap'[row[j].value], heap'[row[j + 1].value], drawn + |js|)]
    ensures HeapAfter(heap, row, drawn, js + [j], heap'')
  {
    PairUntouched(heap, row, drawn, js, heap', j);
    OthersTaken(heap, row, js, j);
    HeapMore(heap, row, drawn, js, heap', j, heap'');
  }

  lemma {:induction false} PairUntouched(heap: seq<Seg>, row: seq<Slot>, drawn: nat, js: seq<nat>, heap': seq<Seg>,
      j: nat)
    requires Pairing(heap, row, js) && HeapAfter(heap, row, drawn, js, heap') && RowDistinct(row)
    requires Both(heap, row, j) && (forall a :: 0 <= a < |js| ==> js[a] + 1 < j)
    ensures heap'[row[j].value] == heap[row[j].value] && heap'[row[j + 1].value] == heap[row[j + 1].value]
  {
    OthersTaken(heap, row, js, j);
  }

  lemma {:induction false} HeapMore(heap: seq<Seg>, row: seq<Slot>, drawn: nat, js: seq<nat>, heap': seq<Seg>, j: nat,
      heap'': seq<Seg>)
    requires Pairing(heap, row, js) && HeapAfter(heap, row, drawn, js, heap')
    requires Both(heap, row, j) && Pairing(heap, row, js + [j])
    requires forall a :: 0 <= a < |js| ==> row[js[a]].value != row[j].value
    requires heap'' == heap'[row[j].value := Absorb(heap[row[j].value], heap[row[j + 1].value], drawn + |js|)]
    ensures HeapAfter(heap, row, drawn, js + [j], heap'')
  {
    var js' := js + [j];
    forall a | 0 <= a < |js'|
      ensures heap''[row[js'[a]].value] == Absorb(heap[row[js'[a]].value], heap[row[js'[a] + 1].value], drawn + a)
    {
      if a < |js| {
        assert js'[a] == js[a];
        assert heap''[row[js[a]].value] == heap'[row[js[a]].value];
      } else {
        assert js'[a] == j;
      }
    }
    forall h | 0 <= h < |heap| && (forall a :: 0 <= a < |js'| ==> row[js'[a]].value != h) ensures heap''[h] == heap[h] {
      UntakenBefore(heap, row, js, j, h);
    }
  }

  lemma {:induction false} UntakenBefore(heap: seq<Seg>, row: seq<Slot>, js: seq<nat>, j: nat, h: nat)
    requires Pairing(heap, row, js + [j]) && Pairing(heap, row, js) && Both(heap, row, j)
    requires forall a :: 0 <= a < |js + [j]| ==> row[(js + [j])[a]].value != h
    ensures row[j].value != h && forall a :: 0 <= a < |js| ==> row[js[a]].value != h
  {
    var js' := js + [j];
    assert js'[|js|] == j && row[js'[|js|]].value != h;
    forall a | 0 <= a < |js| ensures row[js[a]].value != h {
      assert js'[a] == js[a];
    }
  }

  lemma {:induction false} TableTurn(levels: LevelTable, i: nat, js: seq<nat>, levels': LevelTable, j: nat)
    requires i < |levels| && (forall a :: 0 <= a < |js| ==> js[a] < j) && j + 1 < |levels[i]|
    requires TableAfter(levels, i, js, levels') && levels'[i][j].Some? && levels'[i][j + 1].Some?
    ensures TableAfter(levels, i, js + [j], Promote(levels', i, j))
  {
    RowTurn(levels[i], js, levels'[i], j);
    var js' := js + [j];
    assert Lefts(levels[i], js') == Lefts(levels[i], js) + [levels[i][j]];
  }

  // ---------------------------------------------------------------------- the choice

  /** A pass has come to slot j: so far it took these pairs, and what it passed over did not fit. */
  ghost predicate Choosing(heap: seq<Seg>, row: seq<Slot>, js: seq<nat>, j: nat, amount: nat, left: nat) {
    && Pairing(heap, row, js) && (forall a :: 0 <= a < |js| ==> js[a] < j)
    && Spent(heap, row, js) + left == amount
    && RefusedBelow(heap, row, amount, js, j)
  }

  ghost predicate RefusedBelow(heap: seq<Seg>, row: seq<Slot>, amount: nat, js: seq<nat>, j: int)
    requires Pairing(heap, row, js)
  {
    forall p :: p < j ==> Refused(heap, row, amount, js, p)
  }

  lemma {:induction false} ChooseTakes(heap: seq<Seg>, row: seq<Slot>, js: seq<nat>, j: nat, amount: nat, left: nat)
    requires Choosing(heap, row, js, j, amount, left) && Both(heap, row, j) && Load(heap, row, j) <= left
    requires forall a :: 0 <= a < |js| ==> js[a] + 1 < j
    ensures Choosing(heap, row, js + [j], j + 1, amount, left - Load(heap, row, j))
  {
    PairingMore(heap, row, js, j);
    forall p | p < j + 1 ensures Refused(heap, row, amount, js + [j], p) {
      if p < j {
        RefusedStill(heap, row, amount, js, j, p);
      } else {
        GoneMore(js, j, p);
      }
    }
  }

  lemma {:induction false} RefusedHere(heap: seq<Seg>, row: seq<Slot>, js: seq<nat>, j: nat, amount: nat)
    requires Pairing(heap, row, js) && (forall a :: 0 <= a < |js| ==> js[a] < j)
    requires Both(heap, row, j) && !Consumed(js, j) ==> Load(heap, row, j) + Spent(heap, row, js) > amount
    ensures Refused(heap, row, amount, js, j)
  {
    forall k: nat | TakenBy(js, k, j) ensures js[..k] == js {
      assert k < |js| ==> js[k] > j;
    }
  }

  lemma {:induction false} ChooseRefuses(heap: seq<Seg>, row: seq<Slot>, js: seq<nat>, j: nat, amount: nat, left: nat)
    requires Choosing(heap, row, js, j, amount, left)
    requires Both(heap, row, j) && !Consumed(js, j) ==> Load(heap, row, j) > left
    ensures Choosing(heap, row, js, j + 1, amount, left)
  {
    RefusedHere(heap, row, js, j, amount);
  }

  lemma {:induction false} ChosenIsGreedy(heap: seq<Seg>, row: seq<Slot>, js: seq<nat>, j: nat, amount: nat, left: nat)
    requires Choosing(heap, row, js, j, amount, left) && j + 1 >= |row|
    ensures Greedy(heap, row, amount, js)
  {
  }

  // ----------------------------------------------------------------------- a whole pass

  /** A pair the code finds is one of the level the pass began with, untouched so far. */
  lemma {:induction false} PairFound(c0: Config, i: nat, js: seq<nat>, c: Config, j: nat)
    requires i < |c0.st.levels| && RowDistinct(c0.st.levels[i])
    requires Pairing(c0.st.heap, c0.st.levels[i], js) && (forall a :: 0 <= a < |js| ==> js[a] < j)
    requires Passed(c0, i, js, c) && PairAt(c.st, i, j)
    ensures forall a :: 0 <= a < |js| ==> js[a] + 1 < j
    ensures Both(c0.st.heap, c0.st.levels[i], j) && PairSize(c.st, i, j) == Load(c0.st.heap, c0.st.levels[i], j)
  {
    RowTurn(c0.st.levels[i], js, c.st.levels[i], j);
    OthersTaken(c0.st.heap, c0.st.levels[i], js, j);
  }

  /** And every pair of the level that is untouched is one the code finds. */
  lemma {:induction false} PairSeen(c0: Config, i: nat, js: seq<nat>, c: Config, j: nat)
    requires i < |c0.st.levels| && RowDistinct(c0.st.levels[i])
    requires Pairing(c0.st.heap, c0.st.levels[i], js) && (forall a :: 0 <= a < |js| ==> js[a] < j)
    requires Passed(c0, i, js, c) && Both(c0.st.heap, c0.st.levels[i], j) && !Consumed(js, j)
    ensures PairAt(c.st, i, j) && PairSize(c.st, i, j) == Load(c0.st.heap, c0.st.levels[i], j)
  {
    assert !Consumed(js, j + 1);
    assert c.st.levels[i][j] == c0.st.levels[i][j] && c.st.levels[i][j + 1] == c0.st.levels[i][j + 1];
    OthersTaken(c0.st.heap, c0.st.levels[i], js, j);
  }

  lemma {:induction false} AnnouncedMore(cur: Task, heap: seq<Seg>, row: seq<Slot>, js: seq<nat>, j: nat)
    requires Pairing(heap, row, js) && Both(heap, row, j) && (forall a :: 0 <= a < |js| ==> js[a] + 1 < j)
    ensures Pairing(heap, row, js + [j])
    ensures
      var now := Announced(cur, heap, row, js);
      Announced(cur, heap, row, js + [j]) ==
        Task(now.erased + [heap[row[j + 1].value].id, heap[row[j].value].id], now.inserted + [row[j].value])
  {
    PairingMore(heap, row, js, j);
  }

  ghost function PassState(c: Config, heap: seq<Seg>, levels: LevelTable, n: nat, cur: Task): Config {
    c.(st := c.st.(heap := heap, levels := levels, drawn := c.st.drawn + n, counter := c.st.counter - n), cur := cur)
  }

  lemma {:induction false} PassStateMore(c0: Config, c: Config, n: nat, cur: Task, i: nat, j: nat)
    requires c == PassState(c0, c.st.heap, c.st.levels, n, cur)
    requires c.phase == Passing(i) && PairAt(c.st, i, j)
    ensures
      var l, r := c.st.levels[i][j].value, c.st.levels[i][j + 1].value;
      PairStep(c, j) ==
        PassState(c0, c.st.heap[l := Absorb(c.st.heap[l], c.st.heap[r], c0.st.drawn + n)],
          Promote(c.st.levels, i, j), n + 1, Task(cur.erased + [c.st.heap[r].id, c.st.heap[l].id], cur.inserted + [l]))
  {
  }

  lemma {:induction false} PassedIs(c0: Config, i: nat, js: seq<nat>, c: Config)
    requires i < |c0.st.levels| && Pairing(c0.st.heap, c0.st.levels[i], js)
    ensures Passed(c0, i, js, c) <==>
      && TableAfter(c0.st.levels, i, js, c.st.levels)
      && HeapAfter(c0.st.heap, c0.st.levels[i], c0.st.drawn, js, c.st.heap)
      && c == PassState(c0, c.st.heap, c.st.levels, |js|, Announced(c0.cur, c0.st.heap, c0.st.levels[i], js))
  {
  }

  lemma {:induction false} PassedState(c0: Config, i: nat, js: seq<nat>, c: Config, j: nat)
    requires i < |c0.st.levels| && Pairing(c0.st.heap, c0.st.levels[i], js) && Both(c0.st.heap, c0.st.levels[i], j)
    requires (forall a :: 0 <= a < |js| ==> js[a] + 1 < j) && c.phase == Passing(i) && PairAt(c.st, i, j)
    requires c.st.levels[i][j] == c0.st.levels[i][j] && c.st.levels[i][j + 1] == c0.st.levels[i][j + 1]
    requires c.st.heap[c.st.levels[i][j].value] == c0.st.heap[c.st.levels[i][j].value]
    requires c.st.heap[c.st.levels[i][j + 1].value] == c0.st.heap[c.st.levels[i][j + 1].value]
    requires c == PassState(c0, c.st.heap, c.st.levels, |js|, Announced(c0.cur, c0.st.heap, c0.st.levels[i], js))
    ensures Pairing(c0.st.heap, c0.st.levels[i], js + [j])
    ensures
      var l, r := c.st.levels[i][j].value, c.st.levels[i][j + 1].value;
      PairStep(c, j) ==
        PassState(c0, c.st.heap[l := Absorb(c0.st.heap[l], c0.st.heap[r], c0.st.drawn + |js|)],
          Promote(c.st.levels, i, j), |js| + 1, Announced(c0.cur, c0.st.heap, c0.st.levels[i], js + [j]))
  {
    AnnouncedMore(c0.cur, c0.st.heap, c0.st.levels[i], js, j);
    PassStateMore(c0, c, |js|, Announced(c0.cur, c0.st.heap, c0.st.levels[i], js), i, j);
  }

  lemma {:induction false} PassedTable(c0: Config, i: nat, js: seq<nat>, c: Config, j: nat)
    requires i < |c0.st.levels| && RowDistinct(c0.st.levels[i]) && c.phase == Passing(i)
    requires Pairing(c0.st.heap, c0.st.levels[i], js) && (forall a :: 0 <= a < |js| ==> js[a] + 1 < j)
    requires Passed(c0, i, js, c) && PairAt(c.st, i, j) && Both(c0.st.heap, c0.st.levels[i], j)
    requires Pairing(c0.st.heap, c0.st.levels[i], js + [j])
    ensures TableAfter(c0.st.levels, i, js + [j], PairStep(c, j).st.levels)
  {
    TableTurn(c0.st.levels, i, js, c.st.levels, j);
  }

  lemma {:induction false} PassedHeap(c0: Config, i: nat, js: seq<nat>, c: Config, j: nat)
    requires i < |c0.st.levels| && RowDistinct(c0.st.levels[i]) && c.phase == Passing(i)
    requires Pairing(c0.st.heap, c0.st.levels[i], js) && (forall a :: 0 <= a < |js| ==> js[a] + 1 < j)
    requires Passed(c0, i, js, c) && PairAt(c.st, i, j) && Both(c0.st.heap, c0.st.levels[i], j)
    requires Pairing(c0.st.heap, c0.st.levels[i], js + [j])
    ensures HeapAfter(c0.st.heap, c0.st.levels[i], c0.st.drawn, js + [j], PairStep(c, j).st.heap)
  {
    assert c.st.levels[i][j] == c0.st.levels[i][j] && c.st.levels[i][j + 1] == c0.st.levels[i][j + 1] by {
      RowTurn(c0.st.levels[i], js, c.st.levels[i], j);
    }
    HeapTurn(c0.st.heap, c0.st.levels[i], c0.st.drawn, js, c.st.heap, j, PairStep(c, j).st.heap);
  }

  lemma {:induction false} PassedRest(c0: Config, i: nat, js: seq<nat>, c: Config, j: nat)
    requires i < |c0.st.levels| && RowDistinct(c0.st.levels[i]) && c.phase == Passing(i)
    requires Pairing(c0.st.heap, c0.st.levels[i], js) && (forall a :: 0 <= a < |js| ==> js[a] + 1 < j)
    requires Passed(c0, i, js, c) && PairAt(c.st, i, j) && Both(c0.st.heap, c0.st.levels[i], j)
    requires Pairing(c0.st.heap, c0.st.levels[i], js + [j])
    ensures
      var c' := PairStep(c, j);
      c' == PassState(c0, c'.st.heap, c'.st.levels, |js + [j]|,
        Announced(c0.cur, c0.st.heap, c0.st.levels[i], js + [j]))
  {
    RowTurn(c0.st.levels[i], js, c.st.levels[i], j);
    PairUntouched(c0.st.heap, c0.st.levels[i], c0.st.drawn, js, c.st.heap, j);
    PassedState(c0, i, js, c, j);
  }

  lemma {:induction false} PassedMore(c0: Config, i: nat, js: seq<nat>, c: Config, j: nat, c': Config)
    requires i < |c0.st.levels| && RowDistinct(c0.st.levels[i]) && c.phase == Passing(i)
    requires Pairing(c0.st.heap, c0.st.levels[i], js) && (forall a :: 0 <= a < |js| ==> js[a] + 1 < j)
    requires Passed(c0, i, js, c) && PairAt(c.st, i, j) && Both(c0.st.heap, c0.st.levels[i], j) && c' == PairStep(c, j)
    ensures Pairing(c0.st.heap, c0.st.levels[i], js + [j]) && Passed(c0, i, js + [j], c')
  {
    PairingMore(c0.st.heap, c0.st.levels[i], js, j);
    PassedTable(c0, i, js, c, j);
    PassedHeap(c0, i, js, c, j);
    PassedRest(c0, i, js, c, j);
    PassedIs(c0, i, js + [j], c');
  }

  /** The pass that began at c0 is at slot j of its level and has led to c. */
  ghost predicate Underway(c0: Config, js: seq<nat>, c: Config, j: nat, amount: nat, left: nat) {
    && c0.phase.Passing? && c0.phase.level < |c0.st.levels| && RowDistinct(c0.st.levels[c0.phase.level])
    && Choosing(c0.st.heap, c0.st.levels[c0.phase.level], js, j, amount, left)
    && Passed(c0, c0.phase.level, js, c)
  }

  /** A pass over the level of c takes exactly the greedy pairs and leaves the rest of the budget. */
  ghost predicate GreedyPass(c: Config, amount: nat, js: seq<nat>, end: Config, rest: nat) {
    && c.phase.Passing? && c.phase.level < |c.st.levels|
    && Greedy(c.st.heap, c.st.levels[c.phase.level], amount, js)
    && Passed(c, c.phase.level, js, end)
    && Spent(c.st.heap, c.st.levels[c.phase.level], js) + rest == amount
  }

  /** A turn that merges: one more pair is taken. */
  lemma {:induction false} TurnTakes(c0: Config, js: seq<nat>, c: Config, j: nat, amount: nat, left: nat, c': Config)
    requires Underway(c0, js, c, j, amount, left) && PairAt(c.st, c.phase.level, j)
    requires PairSize(c.st, c.phase.level, j) <= left && c' == PairStep(c, j)
    ensures Underway(c0, js + [j], c', j + 1, amount, left - PairSize(c.st, c.phase.level, j))
  {
    var i := c0.phase.level;
    PairFound(c0, i, js, c, j);
    ChooseTakes(c0.st.heap, c0.st.levels[i], js, j, amount, left);
    PassedMore(c0, i, js, c, j, c');
  }

  /** A turn that does not: the pair was not there, or did not fit. */
  lemma {:induction false} TurnRefuses(c0: Config, js: seq<nat>, c: Config, j: nat, amount: nat, left: nat)
    requires Underway(c0, js, c, j, amount, left)
    requires !PairAt(c.st, c0.phase.level, j) || PairSize(c.st, c0.phase.level, j) > left
    ensures Underway(c0, js, c, j + 1, amount, left)
  {
    var i := c0.phase.level;
    if Both(c0.st.heap, c0.st.levels[i], j) && !Consumed(js, j) {
      PairSeen(c0, i, js, c, j);
    }
    ChooseRefuses(c0.st.heap, c0.st.levels[i], js, j, amount, left);
  }

  lemma {:induction false} PassEnds(c0: Config, js: seq<nat>, c: Config, j: nat, amount: nat, left: nat)
    requires Underway(c0, js, c, j, amount, left) && c0.phase.level < |c.st.levels|
    requires j + 1 >= |c.st.levels[c0.phase.level]|
    ensures GreedyPass(c0, amount, js, c, left)
  {
    ChosenIsGreedy(c0.st.heap, c0.st.levels[c0.phase.level], js, j, amount, left);
  }

  /** The rest of a pass from slot j on. */
  ghost predicate Going(c: Config, j: nat, left: nat, end: Config, rest: nat) {
    && Shape(c) && c.phase.Passing? && c.phase.level < |c.st.levels|
    && PassFrom(c, j, left) == (end, rest)
  }

  lemma {:induction false} PointAfter(c: Config, j: nat, left: nat, end: Config, rest: nat)
    returns (taken: bool, size: nat)
    requires Going(c, j, left, end, rest) && j + 1 < |c.st.levels[c.phase.level]|
    ensures taken <==> PairAt(c.st, c.phase.level, j) && PairSize(c.st, c.phase.level, j) <= left
    ensures taken ==> size == PairSize(c.st, c.phase.level, j)
    ensures taken ==>
      && Going(PairStep(c, j), j + 1, left - size, end, rest) && PairStep(c, j).phase == c.phase
      && |PairStep(c, j).st.levels[c.phase.level]| == |c.st.levels[c.phase.level]|
    ensures !taken ==> Going(c, j + 1, left, end, rest)
  {
    var i := c.phase.level;
    taken := PairAt(c.st, i, j) && PairSize(c.st, i, j) <= left;
    size := 0;
    if taken {
      size := PairSize(c.st, i, j);
      PairKeepsShape(c, i, j);
    }
  }

  /** A turn of a pass; names the point of the pass in the rules below. */
  ghost predicate PassPoint(js: seq<nat>, c: Config, j: nat, left: nat) {
    c.phase.Passing? && c.phase.level < |c.st.levels| && j + 1 < |c.st.levels[c.phase.level]|
  }

  /** What a turn of a pass that merges keeps. */
  ghost predicate MergesKeep(at: (seq<nat>, Config, nat, nat) -> bool) {
    forall js: seq<nat>, c: Config, j: nat, left: nat {:trigger PassPoint(js, c, j, left)} ::
      PassPoint(js, c, j, left) && at(js, c, j, left) &&
      PairAt(c.st, c.phase.level, j) && PairSize(c.st, c.phase.level, j) <= left ==>
      at(js + [j], PairStep(c, j), j + 1, left - PairSize(c.st, c.phase.level, j))
  }

  /** The code does not merge at slot j. */
  ghost predicate NoFit(c: Config, j: nat, left: nat) {
    c.phase.Passing? && (!PairAt(c.st, c.phase.level, j) || PairSize(c.st, c.phase.level, j) > left)
  }

  /** What a turn that does not merge keeps. */
  ghost predicate SkipsKeep(at: (seq<nat>, Config, nat, nat) -> bool) {
    forall js: seq<nat>, c: Config, j: nat, left: nat {:trigger PassPoint(js, c, j, left)} ::
      PassPoint(js, c, j, left) && at(js, c, j, left) && NoFit(c, j, left) ==> at(js, c, j + 1, left)
  }

  /** What every turn keeps holds at the end of the level. */
  lemma {:induction false} PointsKeep(at: (seq<nat>, Config, nat, nat) -> bool, js: seq<nat>, c: Config, j: nat,
      left: nat, end: Config, rest: nat)
    returns (js': seq<nat>, j': nat)
    requires Going(c, j, left, end, rest) && at(js, c, j, left) && MergesKeep(at) && SkipsKeep(at)
    ensures at(js', end, j', rest) && end.phase == c.phase && c.phase.level < |end.st.levels|
    ensures j' + 1 >= |end.st.levels[c.phase.level]|
    decreases |c.st.levels[c.phase.level]| - j
  {
    if j + 1 >= |c.st.levels[c.phase.level]| {
      js', j' := js, j;
    } else {
      assert PassPoint(js, c, j, left);
      var taken, size := PointAfter(c, j, left, end, rest);
      if taken {
        js', j' := PointsKeep(at, js + [j], PairStep(c, j), j + 1, left - size, end, rest);
      } else {
        js', j' := PointsKeep(at, js, c, j + 1, left, end, rest);
      }
    }
  }

  ghost function Points(c0: Config, amount: nat): (seq<nat>, Config, nat, nat) -> bool {
    (js: seq<nat>, c: Config, j: nat, left: nat) => c.phase == c0.phase && Underway(c0, js, c, j, amount, left)
  }

  lemma {:induction false} PointMerges(c0: Config, amount: nat, js: seq<nat>, c: Config, j: nat, left: nat)
    requires Points(c0, amount)(js, c, j, left) && c.phase.Passing? && PairAt(c.st, c.phase.level, j)
    requires PairSize(c.st, c.phase.level, j) <= left
    ensures Points(c0, amount)(js + [j], PairStep(c, j), j + 1, left - PairSize(c.st, c.phase.level, j))
  {
    TurnTakes(c0, js, c, j, amount, left, PairStep(c, j));
  }

  lemma {:induction false} PointSkips(c0: Config, amount: nat, js: seq<nat>, c: Config, j: nat, left: nat)
    requires Points(c0, amount)(js, c, j, left) && NoFit(c, j, left)
    ensures Points(c0, amount)(js, c, j + 1, left)
  {
    TurnRefuses(c0, js, c, j, amount, left);
  }

  lemma {:induction false} UnderwayMerges(c0: Config, amount: nat)
    ensures MergesKeep(Points(c0, amount))
  {
    var at := Points(c0, amount);
    forall js: seq<nat>, c: Config, j: nat, left: nat |
      PassPoint(js, c, j, left) && at(js, c, j, left) &&
      PairAt(c.st, c.phase.level, j) && PairSize(c.st, c.phase.level, j) <= left
      ensures at(js + [j], PairStep(c, j), j + 1, left - PairSize(c.st, c.phase.level, j))
    {
      PointMerges(c0, amount, js, c, j, left);
    }
  }

  lemma {:induction false} UnderwaySkips(c0: Config, amount: nat)
    ensures SkipsKeep(Points(c0, amount))
  {
    var at := Points(c0, amount);
    forall js: seq<nat>, c: Config, j: nat, left: nat |
      PassPoint(js, c, j, left) && at(js, c, j, left) && NoFit(c, j, left)
      ensures at(js, c, j + 1, left)
    {
      PointSkips(c0, amount, js, c, j, left);
    }
  }

  /** One pass over a level takes, from left to right, every two neighbours that fit what is left of the budget. */
  lemma {:induction false} PassTakesGreedyPairs(c: Config, amount: nat, end: Config, rest: nat) returns (js: seq<nat>)
    requires Shape(c) && c.phase.Passing? && c.phase.level < |c.st.levels| && RowDistinct(c.st.levels[c.phase.level])
    requires PassFrom(c, 0, amount) == (end, rest)
    ensures GreedyPass(c, amount, js, end, rest)
  {
    NothingTaken(c, c.phase.level, amount);
    UnderwayMerges(c, amount);
    UnderwaySkips(c, amount);
    var j;
    js, j := PointsKeep(Points(c, amount), [], c, 0, amount, end, rest);
    PassEnds(c, js, end, j, amount, rest);
  }

  lemma {:induction false} NothingTaken(c: Config, i: nat, amount: nat)
    requires i < |c.st.levels|
    ensures Choosing(c.st.heap, c.st.levels[i], [], 0, amount, amount) && Passed(c, i, [], c)
  {
    var heap, row := c.st.heap, c.st.levels[i];
    assert forall p :: !Consumed([], p);
    assert i + 1 < |c.st.levels| ==> c.st.levels[i + 1] == c.st.levels[i + 1] + Lefts(row, []);
    assert c.cur.erased + NamesGone(heap, row, []) == c.cur.erased;
    assert c.cur.inserted + Products(heap, row, []) == c.cur.inserted;
  }
}
