/** How long the list that search and erase walk is: merging never shortens it. */
module ListLength {
  import opened Prelude
  import opened IndexModel
  import opened IndexInvariant
  import opened IndexSteps
  import opened IndexRuns

  // --------------------------------------------------------------------- removing by name

  /** An entry of the list bears the name. */
  ghost predicate Borne(segments: seq<nat>, heap: seq<Seg>, id: SegId) {
    exists h :: h in segments && h < |heap| && heap[h].id == id
  }

  ghost predicate Nobodys(heap: seq<Seg>, id: SegId) {
    forall h :: 0 <= h < |heap| ==> heap[h].id != id
  }

  lemma {:induction false} RemoveFirstLength(segments: seq<nat>, heap: seq<Seg>, id: SegId)
    requires forall h :: h in segments ==> h < |heap|
    ensures |RemoveFirst(segments, heap, id)| == |segments| - if Borne(segments, heap, id) then 1 else 0
  {
    if segments != [] {
      assert segments == [segments[0]] + segments[1..];
      assert segments[0] in segments;
      if heap[segments[0]].id != id {
        assert forall h :: h in segments[1..] ==> h in segments;
        RemoveFirstLength(segments[1..], heap, id);
        assert Borne(segments[1..], heap, id) <==> Borne(segments, heap, id);
      }
    }
  }

  lemma {:induction false} RemoveFirstSpares(segments: seq<nat>, heap: seq<Seg>, id: SegId, h: nat)
    requires (forall g :: g in segments ==> g < |heap|) && h in segments && heap[h].id != id
    ensures h in RemoveFirst(segments, heap, id)
  {
    assert segments == [segments[0]] + segments[1..];
    assert segments[0] in segments && forall g :: g in segments[1..] ==> g in segments;
    if heap[segments[0]].id != id && h != segments[0] {
      RemoveFirstSpares(segments[1..], heap, id, h);
    }
  }

  /** Names in pairs: of each pair the first is borne by an entry of the list, and the second by nobody. */
  ghost predicate InPairs(segments: seq<nat>, heap: seq<Seg>, ids: seq<SegId>) {
    && |ids| % 2 == 0
    && (forall k :: 0 <= k < |ids| && k % 2 == 0 ==> Borne(segments, heap, ids[k]))
    && (forall k :: 0 <= k < |ids| && k % 2 == 1 ==> Nobodys(heap, ids[k]))
    && (forall k, m :: 0 <= k < m < |ids| && k % 2 == 0 && m % 2 == 0 ==> ids[k] != ids[m])
  }

  lemma {:induction false} StillInPairs(segments: seq<nat>, heap: seq<Seg>, ids: seq<SegId>)
    requires (forall h :: h in segments ==> h < |heap|) && ids != [] && InPairs(segments, heap, ids)
    ensures |ids| >= 2 && InPairs(RemoveFirst(segments, heap, ids[0]), heap, ids[2..])
  {
    var rest, left := ids[2..], RemoveFirst(segments, heap, ids[0]);
    forall k | 0 <= k < |rest| && k % 2 == 0 ensures Borne(left, heap, rest[k]) {
      assert Borne(segments, heap, ids[k + 2]);
      var h :| h in segments && h < |heap| && heap[h].id == ids[k + 2];
      RemoveFirstSpares(segments, heap, ids[0], h);
    }
    forall k | 0 <= k < |rest| && k % 2 == 1 ensures Nobodys(heap, rest[k]) {
      assert Nobodys(heap, ids[k + 2]);
    }
  }

  /** Of each pair of names one entry goes. */
  lemma {:induction false} RemovePairs(segments: seq<nat>, heap: seq<Seg>, ids: seq<SegId>)
    requires (forall h :: h in segments ==> h < |heap|) && InPairs(segments, heap, ids)
    ensures 2 * |RemoveNamed(segments, heap, ids)| == 2 * |segments| - |ids|
    decreases |ids|
  {
    if ids != [] {
      StillInPairs(segments, heap, ids);
      var s1 := RemoveFirst(segments, heap, ids[0]);
      RemoveFirstLength(segments, heap, ids[0]);
      var s2 := RemoveFirst(s1, heap, ids[1]);
      RemoveNobodys(s1, heap, ids[1]);
      assert ids[1..][1..] == ids[2..] && ids[1..][0] == ids[1];
      assert RemoveNamed(segments, heap, ids) == RemoveNamed(s1, heap, ids[1..]) == RemoveNamed(s2, heap, ids[2..]);
      RemovePairs(s1, heap, ids[2..]);
    }
  }

  lemma {:induction false} RemoveNobodys(segments: seq<nat>, heap: seq<Seg>, id: SegId)
    requires (forall h :: h in segments ==> h < |heap|) && Nobodys(heap, id)
    ensures RemoveFirst(segments, heap, id) == segments
  {
    if segments != [] {
      assert segments == [segments[0]] + segments[1..];
      assert segments[0] in segments && forall h :: h in segments[1..] ==> h in segments;
      RemoveNobodys(segments[1..], heap, id);
    }
  }

  lemma {:induction false} BorneByMore(segments: seq<nat>, more: seq<nat>, heap: seq<Seg>, ids: seq<SegId>)
    requires InPairs(segments, heap, ids)
    ensures InPairs(segments + more, heap, ids)
  {
    forall k | 0 <= k < |ids| && k % 2 == 0 ensures Borne(segments + more, heap, ids[k]) {
      assert Borne(segments, heap, ids[k]);
      var h :| h in segments && h < |heap| && heap[h].id == ids[k];
      assert h in segments + more;
    }
  }

  // ------------------------------------------------------------------------- the invariant

  /** One entry per segment object sealed so far. During a pass the names collected are in pairs: the absorbed
      segment is still listed, and the old name of the product is borne by nobody. */
  ghost predicate Steady(c: Config, t: nat) {
    && c.st.last + 1 == |c.st.heap|
    && |c.st.segments| == c.st.last
    && c.st.sz == t * c.st.last
    && (c.phase.Passing? ==> InPairs(c.st.segments, c.st.heap, c.cur.erased))
  }

  lemma {:induction false} RenameKeepsBorne(segments: seq<nat>, heap: seq<Seg>, l: nat, seg: Seg, id: SegId)
    requires Borne(segments, heap, id) && l < |heap| && heap[l].id != id
    ensures Borne(segments, heap[l := seg], id)
  {
    var h :| h in segments && h < |heap| && heap[h].id == id;
    assert heap[l := seg][h] == heap[h];
  }

  lemma {:induction false} PairInPairs(segments: seq<nat>, heap: seq<Seg>, drawn: nat, ids: seq<SegId>, l: nat, r: nat,
      seg: Seg)
    requires Names(heap, drawn) && InPairs(segments, heap, ids) && (forall x :: x in ids ==> x < drawn)
    requires l < |heap| && r < |heap| && l != r && r in segments && seg.id == drawn
    requires heap[l].id !in ids && heap[r].id !in ids
    ensures InPairs(segments, heap[l := seg], ids + [heap[r].id, heap[l].id])
  {
    var heap', ids' := heap[l := seg], ids + [heap[r].id, heap[l].id];
    forall k | 0 <= k < |ids'| && k % 2 == 0 ensures Borne(segments, heap', ids'[k]) {
      if k < |ids| {
        assert ids'[k] == ids[k] && ids[k] in ids;
        RenameKeepsBorne(segments, heap, l, seg, ids[k]);
      } else {
        assert heap'[r].id == ids'[k];
      }
    }
    forall k | 0 <= k < |ids'| && k % 2 == 1 ensures Nobodys(heap', ids'[k]) {
      if k < |ids| {
        assert ids'[k] == ids[k] && ids[k] in ids && Nobodys(heap, ids[k]);
      } else {
        assert ids'[k] == heap[l].id;
      }
    }
    forall k, m | 0 <= k < m < |ids'| && k % 2 == 0 && m % 2 == 0 ensures ids'[k] != ids'[m] {
      assert k < |ids| && ids[k] in ids;
    }
  }

  lemma {:induction false} PairKeepsSteady(w: World, t: nat, j: nat)
    requires Inv(w, t) && Enabled(w, DoPair(j)) && Steady(w.c, t)
    ensures Steady(PairStep(w.c, j), t)
  {
    var st, i := w.c.st, w.c.phase.level;
    var l, r := st.levels[i][j].value, st.levels[i][j + 1].value;
    PairListed(st, i, j);
    PairInPairs(st.segments, st.heap, st.drawn, w.c.cur.erased, l, r, Absorb(st.heap[l], st.heap[r], st.drawn));
  }

  lemma {:induction false} FlushKeepsSteady(w: World, t: nat)
    requires Inv(w, t) && Enabled(w, DoFlushPass) && Steady(w.c, t)
    ensures Steady(FlushPass(w.c), t)
  {
    var c := w.c;
    BorneByMore(c.st.segments, c.cur.inserted, c.st.heap, c.cur.erased);
    RemovePairs(c.st.segments + c.cur.inserted, c.st.heap, c.cur.erased);
  }

  lemma {:induction false} PutKeepsSteady(c: Config, t: nat, d: Doc)
    requires c.phase.Filling? && Steady(c, t)
    ensures Steady(Put(c, t, d), t)
  {
    OneMoreSealed(t, c.st.last);
  }

  lemma {:induction false} OneMoreSealed(t: nat, n: nat)
    ensures t * (n + 1) == t * n + t
  {
  }

  /** The products of a pass stand at the end of the list, in order; what goes, goes from what was listed before. */
  lemma {:induction false} ProductsAtTheEnd(segments: seq<nat>, more: seq<nat>, heap: seq<Seg>, ids: seq<SegId>)
    requires (forall h :: h in segments ==> h < |heap|) && (forall h :: h in more ==> h < |heap|)
    requires InPairs(segments, heap, ids)
    ensures forall h :: h in segments + more ==> h < |heap|
    ensures RemoveNamed(segments + more, heap, ids) == RemoveNamed(segments, heap, ids) + more
    decreases |ids|
  {
    if ids != [] {
      StillInPairs(segments, heap, ids);
      var s1 := RemoveFirst(segments, heap, ids[0]);
      RemoveFirstLeft(segments, more, heap, ids[0]);
      RemoveNobodys(s1, heap, ids[1]);
      RemoveNobodys(s1 + more, heap, ids[1]);
      assert ids[1..][1..] == ids[2..] && ids[1..][0] == ids[1];
      ProductsAtTheEnd(s1, more, heap, ids[2..]);
    }
  }

  lemma {:induction false} RemoveFirstLeft(segments: seq<nat>, more: seq<nat>, heap: seq<Seg>, id: SegId)
    requires (forall h :: h in segments ==> h < |heap|) && (forall h :: h in more ==> h < |heap|)
    requires Borne(segments, heap, id)
    ensures forall h :: h in segments + more ==> h < |heap|
    ensures RemoveFirst(segments + more, heap, id) == RemoveFirst(segments, heap, id) + more
  {
    assert segments == [segments[0]] + segments[1..];
    assert segments[0] in segments && forall h :: h in segments[1..] ==> h in segments;
    assert (segments + more)[0] == segments[0] && (segments + more)[1..] == segments[1..] + more;
    if heap[segments[0]].id != id {
      var h :| h in segments && h < |heap| && heap[h].id == id;
      assert h in segments[1..];
      RemoveFirstLeft(segments[1..], more, heap, id);
    }
  }

  lemma {:induction false} StepKeepsSteady(w: World, t: nat, m: Step)
    requires Inv(w, t) && Enabled(w, m) && Steady(w.c, t)
    ensures Steady(Next(w, t, m).c, t)
  {
    match m
    case DoPut(d) => PutKeepsSteady(w.c, t, d);
    case DoFlushAdd =>
    case DoBegin =>
    case DoPair(j) => PairKeepsSteady(w, t, j);
    case DoFlushPass => FlushKeepsSteady(w, t);
    case DoCompact =>
    case DoErase(xs) =>
  }

  lemma {:induction false} RunsKeepSteady(w: World, t: nat, ms: seq<Step>, w': World)
    requires Inv(w, t) && Runs(w, t, ms, w') && Steady(w.c, t)
    ensures Steady(w'.c, t)
    decreases |ms|
  {
    if ms != [] {
      StepKeepsInv(w, t, ms[0]);
      StepKeepsSteady(w, t, ms[0]);
      RunsKeepSteady(Next(w, t, ms[0]), t, ms[1..], w');
    }
  }

  /** In every reachable state the list has one entry for every segment ever sealed, whatever was merged since: a merge
      replaces entries by others and never shortens what search and erase walk. */
  lemma {:induction false} ListNeverShrinks(t: nat, merging: bool, ops: seq<Op>)
    requires t >= 1 && Legal(map[], ops)
    ensures
      var st := DoAll(Begin(), t, merging, ops).st;
      |st.segments| == st.last == |st.heap| - 1 && st.sz == t * st.last
  {
    EmptyInv(t);
    var ms := OpsRun(EMPTY_WORLD, t, merging, ops);
    var w := World(DoAll(Begin(), t, merging, ops), PlainAll(map[], ops), AddedAll(map[], ops));
    RunsKeepSteady(EMPTY_WORLD, t, ms, w);
  }
}
