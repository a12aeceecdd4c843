/** The stations of a merge: the configurations its two loops pass through, and that every pair met on the way
    may be merged. */
module MergeStations {
  import opened Levels
  import opened IndexModel
  import opened IndexSteps
  import opened IndexRuns

  /** A configuration and the budget left there. */
  type Station = (Config, nat)

  ghost predicate InPass(c: Config, i: nat) {
    Shape(c) && c.phase == Passing(i) && i < |c.st.levels|
  }

  /** One turn of the inner loop. */
  ghost function Turn(p: Station, j: nat): Station
    requires p.0.phase.Passing?
  {
    var (c, amount) := p;
    if PairAt(c.st, c.phase.level, j) && PairSize(c.st, c.phase.level, j) <= amount
    then (PairStep(c, j), amount - PairSize(c.st, c.phase.level, j)) else p
  }

  /** The two objects of a pair differ and share no document. */
  ghost predicate PairOk(st: State, i: nat, j: nat) {
    PairAt(st, i, j) ==>
      var l, r := st.levels[i][j].value, st.levels[i][j + 1].value;
      l != r && st.heap[l].known !! st.heap[r].live.Keys
  }

  // ----------------------------------------------------------------------- one pass

  ghost function Stop(tr: seq<Station>, j: int): Station
    requires 0 <= j < |tr|
  {
    tr[j]
  }

  ghost predicate TurnOk(p: Station, next: Station, i: nat, j: nat) {
    && InPass(p.0, i) && j + 1 < |p.0.st.levels[i]|
    && PairOk(p.0.st, i, j)
    && next == Turn(p, j)
  }

  /** What a turn does: merges the pair and pays for it, or nothing. */
  lemma {:induction false} TurnIs(p: Station, next: Station, i: nat, j: nat)
    requires TurnOk(p, next, i, j)
    ensures
      if BothFit(p.0.st.heap, p.0.st.levels[i][j], p.0.st.levels[i][j + 1], p.1) then
        && PairAt(p.0.st, i, j) && next.0.st == MergePair(p.0.st, i, j) && next.0.cur == PairTask(p.0.st, p.0.cur, i, j)
        && next.1 == p.1 - PairSize(p.0.st, i, j)
      else next == p
  {
  }

  /** The stations of a pass over level i, one per slot visited. */
  ghost predicate PassTrail(tr: seq<Station>, i: nat) {
    && tr != []
    && (forall j {:trigger Stop(tr, j)} :: 0 <= j < |tr| - 1 ==> TurnOk(Stop(tr, j), tr[j + 1], i, j))
    && InPass(tr[|tr| - 1].0, i) && |tr[|tr| - 1].0.st.levels[i]| <= |tr|
  }

  /** The loop goes on exactly while there is a station ahead. */
  lemma {:induction false} PassLength(tr: seq<Station>, i: nat, j: nat)
    requires PassTrail(tr, i) && j < |tr|
    ensures InPass(tr[j].0, i) && (j + 1 < |tr[j].0.st.levels[i]| <==> j + 1 < |tr|)
  {
    if j + 1 < |tr| {
      assert TurnOk(Stop(tr, j), tr[j + 1], i, j);
    }
  }

  lemma {:induction false} PairIsOk(w: World, t: nat, i: nat, j: nat)
    requires Inv(w, t)
    ensures PairOk(w.c.st, i, j)
  {
    if PairAt(w.c.st, i, j) {
      PairListed(w.c.st, i, j);
    }
  }

  lemma {:induction false} TurnKeeps(w: World, t: nat, i: nat, j: nat, amount: nat)
    requires Inv(w, t) && InPass(w.c, i)
    ensures
      var (c', _) := Turn((w.c, amount), j);
      Inv(w.(c := c'), t) && InPass(c', i) && |c'.st.levels[i]| == |w.c.st.levels[i]|
  {
    if PairAt(w.c.st, i, j) {
      PairKeepsInv(w, t, j);
      PairKeepsShape(w.c, i, j);
    }
  }

  lemma {:induction false} PassUnfold(c: Config, i: nat, j: nat, amount: nat)
    requires InPass(c, i)
    ensures j + 1 >= |c.st.levels[i]| ==> PassFrom(c, j, amount) == (c, amount)
    ensures
      var (c', left) := Turn((c, amount), j);
      j + 1 < |c.st.levels[i]| ==> InPass(c', i) && PassFrom(c, j, amount) == PassFrom(c', j + 1, left)
  {
    if PairAt(c.st, i, j) {
      PairKeepsShape(c, i, j);
    }
  }

  /** The stations from slot j of level i on. */
  ghost predicate TurnsFrom(tr: seq<Station>, i: nat, j: nat) {
    && tr != []
    && (forall k :: 0 <= k < |tr| - 1 ==> TurnOk(tr[k], tr[k + 1], i, j + k))
    && InPass(tr[|tr| - 1].0, i) && |tr[|tr| - 1].0.st.levels[i]| <= j + |tr|
  }

  lemma {:induction false} PrependTurn(p: Station, rest: seq<Station>, i: nat, j: nat)
    requires TurnsFrom(rest, i, j + 1) && TurnOk(p, rest[0], i, j)
    ensures TurnsFrom([p] + rest, i, j) && ([p] + rest)[0] == p && ([p] + rest)[|rest|] == rest[|rest| - 1]
  {
    var tr := [p] + rest;
    forall k | 0 <= k < |tr| - 1 ensures TurnOk(tr[k], tr[k + 1], i, j + k) {
      if k > 0 {
        assert TurnOk(rest[k - 1], rest[k], i, j + 1 + (k - 1));
      }
    }
  }

  /** At station q the pass is about to visit slot k and will end at `end`. */
  ghost predicate Ready(w: World, t: nat, i: nat, size: nat, end: Station, q: Station, k: nat) {
    && Inv(w.(c := q.0), t) && InPass(q.0, i) && |q.0.st.levels[i]| == size
    && PassFrom(q.0, k, q.1) == end
  }

  lemma {:induction false} ReadyStep(w: World, t: nat, i: nat, size: nat, end: Station, q: Station, k: nat)
    requires Ready(w, t, i, size, end, q, k)
    ensures k + 1 >= size ==> q == end
    ensures k + 1 < size ==> TurnOk(q, Turn(q, k), i, k) && Ready(w, t, i, size, end, Turn(q, k), k + 1)
  {
    PassUnfold(q.0, i, k, q.1);
    if k + 1 < size {
      PairIsOk(w.(c := q.0), t, i, k);
      TurnKeeps(w.(c := q.0), t, i, k, q.1);
    }
  }

  ghost function ReadyAt(w: World, t: nat, i: nat, size: nat, end: Station): (Station, nat) -> bool {
    (q: Station, k: nat) => Ready(w, t, i, size, end, q, k)
  }

  /** Ready stations lie in the pass over level i. */
  ghost predicate StaysIn(ready: (Station, nat) -> bool, i: nat, size: nat) {
    forall q: Station, k: nat {:trigger ready(q, k)} :: ready(q, k) ==> InPass(q.0, i) && |q.0.st.levels[i]| == size
  }

  /** Past the last pair only the end is ready. */
  ghost predicate EndsAt(ready: (Station, nat) -> bool, size: nat, end: Station) {
    forall q: Station, k: nat {:trigger ready(q, k)} :: ready(q, k) && k + 1 >= size ==> q == end
  }

  /** A turn leads from a ready station to the next one. */
  ghost predicate LeadsOn(ready: (Station, nat) -> bool, i: nat, size: nat) {
    forall q: Station, k: nat {:trigger Hop(ready, i, q, k)} :: ready(q, k) && k + 1 < size ==> Hop(ready, i, q, k)
  }

  ghost predicate Hop(ready: (Station, nat) -> bool, i: nat, q: Station, k: nat) {
    InPass(q.0, i) && TurnOk(q, Turn(q, k), i, k) && ready(Turn(q, k), k + 1)
  }

  lemma {:induction false} ReadyHop(w: World, t: nat, i: nat, size: nat, end: Station, q: Station, k: nat)
    requires ReadyAt(w, t, i, size, end)(q, k) && k + 1 < size
    ensures Hop(ReadyAt(w, t, i, size, end), i, q, k)
  {
    ReadyStep(w, t, i, size, end, q, k);
  }

  lemma {:induction false} PassEndsAt(w: World, t: nat, i: nat, size: nat, end: Station)
    ensures StaysIn(ReadyAt(w, t, i, size, end), i, size) && EndsAt(ReadyAt(w, t, i, size, end), size, end)
  {
    forall q: Station, k: nat | Ready(w, t, i, size, end, q, k) && k + 1 >= size ensures q == end {
      ReadyStep(w, t, i, size, end, q, k);
    }
  }

  lemma {:induction false} PassLeadsOn(w: World, t: nat, i: nat, size: nat, end: Station)
    ensures LeadsOn(ReadyAt(w, t, i, size, end), i, size)
  {
    forall q: Station, k: nat {:trigger Hop(ReadyAt(w, t, i, size, end), i, q, k)} |
      ReadyAt(w, t, i, size, end)(q, k) && k + 1 < size ensures Hop(ReadyAt(w, t, i, size, end), i, q, k)
    {
      ReadyHop(w, t, i, size, end, q, k);
    }
  }

  lemma {:induction false} BuildTurns(ready: (Station, nat) -> bool, i: nat, size: nat, end: Station, p: Station,
      j: nat)
    returns (tr: seq<Station>)
    requires ready(p, j) && StaysIn(ready, i, size) && EndsAt(ready, size, end) && LeadsOn(ready, i, size)
    ensures TurnsFrom(tr, i, j) && tr[0] == p && tr[|tr| - 1] == end
    decreases size - j
  {
    if j + 1 >= size {
      tr := [p];
    } else {
      assert Hop(ready, i, p, j);
      var rest := BuildTurns(ready, i, size, end, Turn(p, j), j + 1);
      PrependTurn(p, rest, i, j);
      tr := [p] + rest;
    }
  }

  /** A pass that can be walked: all its pairs may be merged. */
  ghost predicate Walkable(c: Config, i: nat, amount: nat) {
    InPass(c, i) && exists tr :: PassTrail(tr, i) && Spans(tr, c, i, amount)
  }

  ghost predicate Spans(tr: seq<Station>, c: Config, i: nat, amount: nat)
    requires InPass(c, i)
  {
    tr != [] && tr[0] == (c, amount) && tr[|tr| - 1] == PassFrom(c, 0, amount)
  }

  lemma {:induction false} PassIsWalkable(w: World, t: nat, i: nat, amount: nat)
    requires Inv(w, t) && InPass(w.c, i)
    ensures Walkable(w.c, i, amount)
  {
    var size, end := |w.c.st.levels[i]|, PassFrom(w.c, 0, amount);
    PassEndsAt(w, t, i, size, end);
    PassLeadsOn(w, t, i, size, end);
    assert w.(c := w.c) == w;
    var tr := BuildTurns(ReadyAt(w, t, i, size, end), i, size, end, (w.c, amount), 0);
    assert PassTrail(tr, i) && Spans(tr, w.c, i, amount);
  }

  // -------------------------------------------------------------------- all passes

  ghost predicate PassOk(p: Station, next: Station, i: nat) {
    && p.1 > 0 && InPass(p.0, i) && p.0.cur == NO_TASK
    && Walkable(p.0, i, p.1)
    && var (c', left) := PassFrom(p.0, 0, p.1);
       next == (FlushPass(c'), left) && c'.outbox == p.0.outbox
  }

  ghost predicate Done(p: Station, i: nat) {
    Shape(p.0) && p.0.phase == Passing(i) && !(p.1 > 0 && i < |p.0.st.levels|)
  }

  /** The stations of a merge, one per level visited. */
  ghost predicate MergeTrail(tr: seq<Station>) {
    && tr != []
    && (forall i {:trigger Stop(tr, i)} :: 0 <= i < |tr| - 1 ==> PassOk(Stop(tr, i), tr[i + 1], i))
    && Done(tr[|tr| - 1], |tr| - 1)
  }

  /** The loop goes on exactly while there is a station ahead. */
  lemma {:induction false} MergeLength(tr: seq<Station>, i: nat)
    requires MergeTrail(tr) && i < |tr|
    ensures Shape(tr[i].0) && (tr[i].1 > 0 && i < |tr[i].0.st.levels| <==> i + 1 < |tr|)
  {
    if i + 1 < |tr| {
      assert PassOk(Stop(tr, i), tr[i + 1], i);
    }
  }

  /** The stations from level i on. */
  ghost predicate PassesFrom(tr: seq<Station>, i: nat) {
    && tr != []
    && (forall k :: 0 <= k < |tr| - 1 ==> PassOk(tr[k], tr[k + 1], i + k))
    && Done(tr[|tr| - 1], i + |tr| - 1)
  }

  lemma {:induction false} PrependPass(p: Station, rest: seq<Station>, i: nat)
    requires PassesFrom(rest, i + 1) && PassOk(p, rest[0], i)
    ensures PassesFrom([p] + rest, i) && ([p] + rest)[0] == p && ([p] + rest)[|rest|] == rest[|rest| - 1]
  {
    var tr := [p] + rest;
    forall k | 0 <= k < |tr| - 1 ensures PassOk(tr[k], tr[k + 1], i + k) {
      if k > 0 {
        assert PassOk(rest[k - 1], rest[k], i + 1 + (k - 1));
      }
    }
  }

  /** One pass: where it leads, and that it takes the merge forward. */
  lemma {:induction false} PassHop(w: World, t: nat, i: nat, amount: nat, c': Config, left: nat, c'': Config)
    requires Inv(w, t) && InPass(w.c, i) && w.c.cur == NO_TASK && amount > 0
    requires PassFrom(w.c, 0, amount) == (c', left) && c'' == FlushPass(c')
    ensures Inv(w.(c := c''), t) && c''.phase == Passing(i + 1) && c''.cur == NO_TASK
    ensures PassOk((w.c, amount), (c'', left), i)
    ensures |Bag(c''.st.levels)| < |Bag(w.c.st.levels)| || c''.st.levels == w.c.st.levels
  {
    PassIsWalkable(w, t, i, amount);
    PassKeepsLevel(w.c, i, 0, amount);
    PassKeeps(w, t, i, amount);
    PassShrinks(w.c, 0, amount, c');
  }

  lemma {:induction false} MergeHop(w: World, t: nat, i: nat, amount: nat, end: Station) returns (next: Station)
    requires Inv(w, t) && w.c.phase == Passing(i) && w.c.cur == NO_TASK && Passes(w.c, amount) == end
    requires amount > 0 && i < |w.c.st.levels|
    ensures PassOk((w.c, amount), next, i)
    ensures Inv(w.(c := next.0), t) && next.0.phase == Passing(i + 1) && next.0.cur == NO_TASK &&
      Passes(next.0, next.1) == end
    ensures |Bag(next.0.st.levels)| < |Bag(w.c.st.levels)| || next.0.st.levels == w.c.st.levels
  {
    var (c', left) := PassFrom(w.c, 0, amount);
    PassHop(w, t, i, amount, c', left, FlushPass(c'));
    next := (FlushPass(c'), left);
  }

  /** At station q the merge is about to visit level k and will end at `end`. */
  ghost function MergeReady(w: World, t: nat, end: Station): (Station, nat) -> bool {
    (q: Station, k: nat) =>
      Inv(w.(c := q.0), t) && q.0.phase == Passing(k) && q.0.cur == NO_TASK && Passes(q.0, q.1) == end
  }

  ghost predicate GoesOn(q: Station, k: nat) {
    q.1 > 0 && k < |q.0.st.levels|
  }

  /** A pass leads from q to a ready station and leaves fewer segments or fewer levels to visit. */
  ghost predicate PassTo(ready: (Station, nat) -> bool, q: Station, k: nat, next: Station) {
    && PassOk(q, next, k) && ready(next, k + 1)
    && (|Bag(next.0.st.levels)| < |Bag(q.0.st.levels)| || next.0.st.levels == q.0.st.levels)
  }

  ghost predicate PassAhead(ready: (Station, nat) -> bool, q: Station, k: nat) {
    exists next :: PassTo(ready, q, k, next)
  }

  ghost predicate PassesLeadOn(ready: (Station, nat) -> bool) {
    forall q: Station, k: nat {:trigger PassAhead(ready, q, k)} :: ready(q, k) && GoesOn(q, k) ==>
      PassAhead(ready, q, k)
  }

  ghost predicate PassesEndAt(ready: (Station, nat) -> bool, end: Station) {
    forall q: Station, k: nat {:trigger ready(q, k)} :: ready(q, k) && !GoesOn(q, k) ==> q == end && Done(q, k)
  }

  lemma {:induction false} ReadyPass(w: World, t: nat, end: Station, q: Station, k: nat)
    requires MergeReady(w, t, end)(q, k) && GoesOn(q, k)
    ensures PassAhead(MergeReady(w, t, end), q, k)
  {
    var next := MergeHop(w.(c := q.0), t, k, q.1, end);
    assert PassTo(MergeReady(w, t, end), q, k, next);
  }

  lemma {:induction false} MergeLeadsOn(w: World, t: nat, end: Station)
    ensures PassesLeadOn(MergeReady(w, t, end))
  {
    forall q: Station, k: nat {:trigger PassAhead(MergeReady(w, t, end), q, k)} |
      MergeReady(w, t, end)(q, k) && GoesOn(q, k) ensures PassAhead(MergeReady(w, t, end), q, k)
    {
      ReadyPass(w, t, end, q, k);
    }
  }

  lemma {:induction false} MergeEndsAt(w: World, t: nat, end: Station)
    ensures PassesEndAt(MergeReady(w, t, end), end)
  {
  }

  lemma {:induction false} BuildPasses(ready: (Station, nat) -> bool, end: Station, p: Station, i: nat)
    returns (tr: seq<Station>)
    requires ready(p, i) && PassesLeadOn(ready) && PassesEndAt(ready, end)
    ensures PassesFrom(tr, i) && tr[0] == p && tr[|tr| - 1] == end
    decreases |Bag(p.0.st.levels)|, |p.0.st.levels| - i
  {
    if GoesOn(p, i) {
      assert PassAhead(ready, p, i);
      var next :| PassTo(ready, p, i, next);
      var rest := BuildPasses(ready, end, next, i + 1);
      PrependPass(p, rest, i);
      tr := [p] + rest;
    } else {
      tr := [p];
    }
  }

  lemma {:induction false} WalkKeepsInv(w: World, t: nat, i: nat, amount: nat)
    requires Inv(w, t) && InPass(w.c, i)
    ensures Inv(w.(c := PassFrom(w.c, 0, amount).0), t)
  {
    var ms := PassRuns(w, t, 0, amount, PassFrom(w.c, 0, amount).0, PassFrom(w.c, 0, amount).1);
    RunsKeepInv(w, t, ms, w.(c := PassFrom(w.c, 0, amount).0));
  }

  lemma {:induction false} FlushedPass(w: World, t: nat, i: nat)
    requires Inv(w, t) && InPass(w.c, i)
    ensures Inv(w.(c := FlushPass(w.c)), t) && FlushPass(w.c).phase == Passing(i + 1) && FlushPass(w.c).cur == NO_TASK
    ensures FlushPass(w.c).st.levels == w.c.st.levels
  {
    FlushPassKeepsInv(w, t);
    FlushKeepsShape(w.c);
  }

  lemma {:induction false} PassKeeps(w: World, t: nat, i: nat, amount: nat)
    requires Inv(w, t) && InPass(w.c, i)
    ensures
      var c' := FlushPass(PassFrom(w.c, 0, amount).0);
      Inv(w.(c := c'), t) && c'.phase == Passing(i + 1) && c'.cur == NO_TASK &&
        c'.st.levels == PassFrom(w.c, 0, amount).0.st.levels
  {
    WalkKeepsInv(w, t, i, amount);
    PassKeepsLevel(w.c, i, 0, amount);
    FlushedPass(w.(c := PassFrom(w.c, 0, amount).0), t, i);
  }

  lemma {:induction false} PassKeepsLevel(c: Config, i: nat, j: nat, amount: nat)
    requires InPass(c, i)
    ensures InPass(PassFrom(c, j, amount).0, i) && PassFrom(c, j, amount).0.outbox == c.outbox
    decreases |c.st.levels[i]| - j
  {
    PassUnfold(c, i, j, amount);
    if j + 1 < |c.st.levels[i]| {
      if PairAt(c.st, i, j) {
        PairKeepsShape(c, i, j);
      }
      var next := Turn((c, amount), j);
      PassKeepsLevel(next.0, i, j + 1, next.1);
    }
  }

  /** The stations of `merge` from an idle index. */
  lemma {:induction false} MakeMergeTrail(w: World, t: nat, amount: nat) returns (tr: seq<Station>)
    requires Inv(w, t) && Idle(w.c)
    ensures MergeTrail(tr) && tr[0] == (w.c.(phase := Passing(0)), amount)
    ensures Merge(w.c, amount) == Compact(tr[|tr| - 1].0)
  {
    StepKeepsInv(w, t, DoBegin);
    var w1 := Next(w, t, DoBegin);
    var end := Passes(w1.c, amount);
    MergeLeadsOn(w1, t, end);
    MergeEndsAt(w1, t, end);
    assert w1.(c := w1.c) == w1;
    tr := BuildPasses(MergeReady(w1, t, end), end, (w1.c, amount), 0);
  }
}
