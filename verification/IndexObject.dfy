/** `Index` as an object over shared `Segment` references, proved step by step to do what the value model does. */
module IndexObject {
  import opened Prelude
  import opened TopK
  import opened Faiss
  import opened Levels
  import opened IndexModel
  import opened IndexInvariant
  import opened IndexSteps
  import opened IndexRuns
  import opened AddLaws
  import opened IndexHistory
  import opened MergeLimits
  import opened MergeStations
  import opened Segments
  import Search
  import StorageLaws
  import opened Replication

  /** The arguments of one call of the update callback. */
  datatype Notice = Notice(erased: seq<SegId>, inserted: seq<Segment>)

  // -------------------------------------------- references against handles into the table of objects

  ghost predicate Unaliased(objs: seq<Segment>) {
    forall a, b :: 0 <= a < b < |objs| ==> objs[a] != objs[b] && objs[a].index != objs[b].index
  }

  ghost predicate HeapIs(objs: seq<Segment>, heap: seq<Seg>)
    reads objs, set o | o in objs :: o.index
  {
    && Unaliased(objs)
    && |objs| == |heap|
    && forall h :: 0 <= h < |heap| ==> objs[h].Ok() && objs[h].Val() == heap[h]
  }

  ghost predicate Owns(repr: set<object>, objs: seq<Segment>) {
    forall h :: 0 <= h < |objs| ==> objs[h] in repr && objs[h].index in repr
  }

  ghost predicate Refs(objs: seq<Segment>, ss: seq<Segment>, hs: seq<nat>) {
    |ss| == |hs| && forall i :: 0 <= i < |hs| ==> hs[i] < |objs| && ss[i] == objs[hs[i]]
  }

  ghost predicate SlotIs(objs: seq<Segment>, s: Segment?, o: Slot) {
    match o
    case None => s == null
    case Some(h) => h < |objs| && s == objs[h]
  }

  ghost predicate Row(objs: seq<Segment>, row: seq<Segment?>, level: seq<Slot>) {
    |row| == |level| && forall j :: 0 <= j < |row| ==> SlotIs(objs, row[j], level[j])
  }

  ghost predicate TableIs(objs: seq<Segment>, levels: seq<seq<Segment?>>, tbl: LevelTable) {
    |levels| == |tbl| && forall i :: 0 <= i < |levels| ==> Row(objs, levels[i], tbl[i])
  }

  ghost predicate CallsAre(objs: seq<Segment>, calls: seq<Notice>, ts: seq<Task>) {
    |calls| == |ts| &&
    forall i :: 0 <= i < |ts| ==> calls[i].erased == ts[i].erased && Refs(objs, calls[i].inserted, ts[i].inserted)
  }

  lemma {:induction false} ReachedIsThorough(w: World, t: nat, docs: seq<Doc>)
    requires Reached(w, t, true) && AllNew(w.added, docs)
    ensures Shape(w.c) && Thorough(Add(w.c, t, false, docs).st, Add(w.c, t, true, docs).st)
    ensures NoNulls(Add(w.c, t, true, docs).st.levels)
  {
    var ops :| Legal(map[], ops) && w == WorldAfter(t, true, ops);
    AddIsThorough(t, true, ops, docs);
  }

  /** Two neighbours in the table of references are two neighbours in the table of handles. */
  lemma {:induction false} SlotsStandFor(index: Index, st: State, ts: seq<Task>, i: nat, j: nat, left: nat)
    requires index.Models(st, ts) && NoNulls(st.levels) && i < |index.levels| && j + 1 < |index.levels[i]|
    requires i < |st.levels| && Tight(st.heap, st.levels[i], left)
    ensures index.PairExceeds(i, j, left)
  {
    assert Row(index.objs, index.levels[i], st.levels[i]);
    var l, r := st.levels[i][j], st.levels[i][j + 1];
    assert SlotIs(index.objs, index.levels[i][j], l) && SlotIs(index.objs, index.levels[i][j + 1], r);
    assert index.objs[l.value].Val() == st.heap[l.value] && index.objs[r.value].Val() == st.heap[r.value];
    assert LiveIn(st.heap, l) + LiveIn(st.heap, r) > left;
  }

  lemma {:induction false} AddLeavesNoPair(index: Index, w: World, docs: seq<Doc>)
    requires index.merging && Reached(w, index.threshold, true) && AllNew(w.added, docs) && Shape(w.c)
    requires index.Models(index.world.c.st, index.world.c.outbox)
    requires index.world == AddTo(w, index.threshold, true, docs)
    ensures
      var moved := Moved(Add(w.c, index.threshold, false, docs).st, index.world.c.st);
      0 <= moved <= 200 && (moved < 200 ==> index.NeighboursExceed(200 - moved))
  {
    ReachedIsThorough(w, index.threshold, docs);
    var st := index.world.c.st;
    var moved := Moved(Add(w.c, index.threshold, false, docs).st, st);
    if moved < 200 {
      var left := 200 - moved;
      forall i: nat, j: nat | i < |index.levels| && j + 1 < |index.levels[i]|
        ensures index.PairExceeds(i, j, left)
      {
        SlotsStandFor(index, st, index.world.c.outbox, i, j, left);
      }
    }
  }

  /** A reference in the list bears a name exactly when its handle does. */
  lemma {:induction false} ListedName(objs: seq<Segment>, segments: seq<Segment>, hs: seq<nat>, heap: seq<Seg>,
      id: SegId)
    requires HeapIs(objs, heap) && Refs(objs, segments, hs)
    ensures (exists i :: 0 <= i < |segments| && segments[i].segId == id) <==>
      exists h :: h in hs && h < |heap| && heap[h].id == id
  {
    if i :| 0 <= i < |segments| && segments[i].segId == id {
      assert objs[hs[i]].Val() == heap[hs[i]] && hs[i] in hs;
    }
    if h :| h in hs && h < |heap| && heap[h].id == id {
      var i :| 0 <= i < |hs| && hs[i] == h;
      assert objs[hs[i]].Val() == heap[hs[i]] && segments[i].segId == id;
    }
  }

  /** The size of a segment in which no id was repeated. */
  method SizeOf(o: Segment) returns (n: nat)
    requires o.Ok()
    ensures n == o.Val().Size()
  {
    n := o.GetSize();
  }

  /** A further object leaves what is known about the others as it was. */
  lemma {:induction false} MoreObjects(objs: seq<Segment>, o: Segment, ss: seq<Segment>, hs: seq<nat>,
                    levels: seq<seq<Segment?>>, tbl: LevelTable, calls: seq<Notice>, ts: seq<Task>)
    requires Refs(objs, ss, hs) && TableIs(objs, levels, tbl) && CallsAre(objs, calls, ts)
    ensures Refs(objs + [o], ss, hs) && TableIs(objs + [o], levels, tbl) && CallsAre(objs + [o], calls, ts)
  {
  }

  lemma {:induction false} RefsGrow(objs: seq<Segment>, objs': seq<Segment>, ss: seq<Segment>, hs: seq<nat>)
    requires Refs(objs, ss, hs) && objs <= objs'
    ensures Refs(objs', ss, hs)
  {
  }

  lemma {:induction false} MoreHeap(objs: seq<Segment>, heap: seq<Seg>, o: Segment, seg: Seg)
    requires HeapIs(objs, heap) && o.Ok() && o.Val() == seg
    requires forall a :: 0 <= a < |objs| ==> objs[a] != o && objs[a].index != o.index
    ensures HeapIs(objs + [o], heap + [seg])
  {
  }

  ghost function Enlisted(st: State, h: nat): State
    requires h < |st.heap|
  {
    var size := st.heap[h].Size();
    st.(levels := Place(st.levels, h, size), counter := st.counter + 1, sz := st.sz + size,
      segments := st.segments + [h])
  }

  ghost function Milestone(trail: seq<Config>, i: int): Config
    requires 0 <= i < |trail|
  {
    trail[i]
  }

  /** From c the next batch is not empty and leads on along the trail. */
  ghost predicate Round(c: Config, trail: seq<Config>, t: nat, docs: seq<Doc>, i: nat)
    requires i < |docs| && |trail| == |docs| + 1
  {
    && c.st.last < |c.st.heap|
    && var s := c.st.heap[c.st.last];
       var n := Min(|docs| - i, t - s.Size());
       0 < n && NewTo(s.known, docs[i..i + n]) && PutBatch(c, t, docs[i..i + n]) == trail[i + n]
  }

  /** The configurations an add passes through, by the number of documents that are in. */
  ghost predicate Trail(trail: seq<Config>, t: nat, docs: seq<Doc>) {
    && |trail| == |docs| + 1
    && forall i {:trigger Milestone(trail, i)} :: 0 <= i < |docs| ==> Round(Milestone(trail, i), trail, t, docs, i)
  }

  /** The trail of an add, and the callback arguments at its ends. */
  lemma {:induction false} MakeTrail(w: World, t: nat, merging: bool, docs: seq<Doc>) returns (trail: seq<Config>)
    requires Reached(w, t, merging) && AllNew(w.added, docs)
    ensures Trail(trail, t, docs) && trail[0] == w.c && w.c.cur == NO_TASK
    ensures Shape(w.c) && trail[|docs|] == PutAll(w.c, t, docs) && Shape(trail[|docs|])
    ensures trail[|docs|].cur.erased == [] && trail[|docs|].outbox == w.c.outbox
  {
    ReachedInv(w, t, merging);
    PutAllKeepsShape(w.c, t, docs);
    PutAllPhase(w.c, t, docs);
    trail := seq(|docs| + 1, i requires 0 <= i <= |docs| => After(w, t, docs, i).c);
    assert docs[..0] == [] && docs[..|docs|] == docs;
    forall i | 0 <= i < |docs| ensures Round(Milestone(trail, i), trail, t, docs, i) {
      RoundAt(w, t, docs, trail, i);
    }
  }

  lemma {:induction false} RoundAt(w: World, t: nat, docs: seq<Doc>, trail: seq<Config>, i: nat)
    requires Inv(w, t) && Idle(w.c) && AllNew(w.added, docs) && i < |docs| && |trail| == |docs| + 1
    requires forall k :: 0 <= k <= |docs| ==> trail[k] == After(w, t, docs, k).c
    ensures Round(trail[i], trail, t, docs, i)
  {
    var w1 := After(w, t, docs, i);
    var n := BatchSize(w1.c, t, |docs| - i);
    BatchRound(w, t, docs, i, w1, n);
    RoundIs(w1.c, trail, t, docs, i, n, After(w, t, docs, i + n).c);
  }

  lemma {:induction false} RoundIs(c: Config, trail: seq<Config>, t: nat, docs: seq<Doc>, i: nat, n: int, c': Config)
    requires i < |docs| && |trail| == |docs| + 1 && c.st.last < |c.st.heap|
    requires n == Min(|docs| - i, t - c.st.heap[c.st.last].Size()) && 0 < n
    requires NewTo(c.st.heap[c.st.last].known, docs[i..i + n]) && PutBatch(c, t, docs[i..i + n]) == c' == trail[i + n]
    ensures Round(c, trail, t, docs, i)
  {
  }

  class Index {
    const threshold: nat
    const merging: bool
    var segments: seq<Segment>
    var levels: seq<seq<Segment?>>
    var last: Segment
    var counter: int
    var sz: nat
    var drawn: nat
    var calls: seq<Notice>

    /** Every segment object this index has made, in order of creation. */
    ghost var objs: seq<Segment>
    /** This object, its segments and their indexes. */
    ghost var repr: set<object>
    /** The value this object stands for. */
    ghost var world: World

    /** The fields hold exactly this state. */
    ghost predicate Models(st: State, ts: seq<Task>)
      reads `segments, `levels, `last, `counter, `sz, `drawn, `calls, `objs, `repr
      reads objs, set o | o in objs :: o.index
    {
      match st
      case State(heap, hs, tbl, open, names, count, size) =>
        && Owns(repr, objs) && this in repr
        && HeapIs(objs, heap)
        && Refs(objs, segments, hs)
        && TableIs(objs, levels, tbl)
        && open < |objs| && last == objs[open]
        && counter == count && sz == size && drawn == names
        && CallsAre(objs, calls, ts)
    }

    ghost predicate Valid()
      reads this, objs, set o | o in objs :: o.index
    {
      && Models(world.c.st, world.c.outbox)
      && Reached(world, threshold, merging)
    }

    constructor (threshold: nat, merging: bool)
      requires threshold >= 1
      ensures Valid() && world == EMPTY_WORLD && fresh(repr - {this})
      ensures this.threshold == threshold && this.merging == merging
    {
      this.threshold, this.merging := threshold, merging;
      var first := new Segment(0);
      segments, levels, last, counter, sz, drawn, calls := [], [], first, 0, 0, 1, [];
      objs, repr, world := [first], {this, first, first.index}, EMPTY_WORLD;
      new;
      StartReached(threshold, merging);
    }

    /** `SegmentStorage::add` */
    method StorageAdd(segment: Segment, ghost h: nat, ghost st: State, ghost ts: seq<Task>)
      requires Models(st, ts) && h < |objs| && segment == objs[h]
      modifies this`levels, this`counter, this`sz
      ensures
        var size := st.heap[h].Size();
        Models(st.(levels := Place(st.levels, h, size), counter := st.counter + 1, sz := st.sz + size), ts)
    {
      var size := SizeOf(segment);
      counter := counter + 1;
      sz := sz + size;
      levels := PlaceRef(levels, segment, size, objs, st.levels, h);
    }

    /** A batch goes into the open segment. */
    method FillLast(batch: seq<Doc>, ghost st: State, ghost ts: seq<Task>)
      requires Models(st, ts) && NewTo(st.heap[st.last].known, batch)
      modifies last.index
      ensures Models(Stuffed(st, batch), ts)
    {
      last.AddVectorBatch(batch);
    }

    /** A segment joins the levels and the list. */
    method Enlist(segment: Segment, ghost h: nat, ghost st: State, ghost ts: seq<Task>)
      requires Models(st, ts) && h < |objs| && segment == objs[h]
      modifies this`levels, this`counter, this`sz, this`segments
      ensures Models(Enlisted(st, h), ts)
    {
      StorageAdd(segment, h, st, ts);
      segments := segments + [segment];
    }

    /** The open segment moves into the levels and the list, and a new one is opened. */
    method SealOpen(ghost st: State, ghost ts: seq<Task>)
      requires Models(st, ts)
      modifies this
      ensures Models(SealLast(st), ts)
      ensures fresh(repr - old(repr)) && old(objs) <= objs
      ensures world == old(world)
    {
      Enlist(last, st.last, st, ts);
      OpenNext(Enlisted(st, st.last), ts);
    }

    /** One round of the loop of `add`: a batch goes in, and a segment it fills is sealed and noted. */
    method FillRound(batch: seq<Doc>, inserted: seq<Segment>, ghost st0: State, ghost hs: seq<nat>, ghost ts: seq<Task>)
      returns (inserted': seq<Segment>)
      requires Models(st0, ts) && NewTo(st0.heap[st0.last].known, batch) && Refs(objs, inserted, hs)
      modifies this, last.index
      ensures
        var st := Stuffed(st0, batch);
        if st.heap[st.last].Size() == threshold
        then Models(SealLast(st), ts) && Refs(objs, inserted', hs + [st.last])
        else Models(st, ts) && Refs(objs, inserted', hs)
      ensures fresh(repr - old(repr)) && world == old(world)
    {
      ghost var st := Stuffed(st0, batch);
      FillLast(batch, st0, ts);
      var size := SizeOf(last);
      inserted' := inserted;
      if size == threshold {
        inserted' := inserted + [last];
        ghost var before := objs;
        SealOpen(st, ts);
        RefsGrow(before, objs, inserted', hs + [st.last]);
      }
    }

    /** The size of the next batch, which is never zero. `trail` holds the configurations on the way. */
    method NextBatch(docs: seq<Doc>, i: nat, ghost trail: seq<Config>, ghost ts: seq<Task>) returns (n: nat)
      requires Trail(trail, threshold, docs) && i < |docs| && Models(trail[i].st, ts)
      ensures 0 < n <= |docs| - i && trail[i].st.last < |trail[i].st.heap|
      ensures NewTo(trail[i].st.heap[trail[i].st.last].known, docs[i..i + n])
      ensures PutBatch(trail[i], threshold, docs[i..i + n]) == trail[i + n]
    {
      assert Round(Milestone(trail, i), trail, threshold, docs, i);
      var size := SizeOf(last);
      n := Min(|docs| - i, threshold - size);
    }

    /** The next batch goes in. */
    method AddRound(docs: seq<Doc>, i: nat, inserted: seq<Segment>, ghost trail: seq<Config>, ghost ts: seq<Task>)
      returns (n: nat, inserted': seq<Segment>)
      requires Trail(trail, threshold, docs) && i < |docs|
      requires Models(trail[i].st, ts) && Refs(objs, inserted, trail[i].cur.inserted)
      modifies this, last.index
      ensures 0 < n <= |docs| - i
      ensures Models(trail[i + n].st, ts) && Refs(objs, inserted', trail[i + n].cur.inserted)
      ensures fresh(repr - old(repr)) && world == old(world)
    {
      n := NextBatch(docs, i, trail, ts);
      PutBatchIs(trail[i], threshold, docs[i..i + n], trail[i + n]);
      inserted' := FillRound(docs[i..i + n], inserted, trail[i].st, trail[i].cur.inserted, ts);
    }

    /** The loop of `add`. */
    method Fill(docs: seq<Doc>, ghost trail: seq<Config>, ghost ts: seq<Task>) returns (inserted: seq<Segment>)
      requires Trail(trail, threshold, docs) && Models(trail[0].st, ts) && trail[0].cur.inserted == []
      modifies repr
      ensures Models(trail[|docs|].st, ts) && Refs(objs, inserted, trail[|docs|].cur.inserted)
      ensures fresh(repr - old(repr)) && world == old(world)
    {
      inserted := [];
      var i := 0;
      while i < |docs|
        invariant 0 <= i <= |docs|
        invariant Models(trail[i].st, ts) && Refs(objs, inserted, trail[i].cur.inserted)
        invariant fresh(repr - old(repr)) && world == old(world)
      {
        var n: nat;
        n, inserted := AddRound(docs, i, inserted, trail, ts);
        i := i + n;
      }
    }

    /** `factory_->create()`: a new object with a newly drawn name becomes the open segment. */
    method OpenNext(ghost st: State, ghost ts: seq<Task>)
      requires Models(st, ts)
      modifies this`last, this`drawn, this`objs, this`repr
      ensures Models(st.(heap := Opened(st.heap, st.drawn), last := |st.heap|, drawn := st.drawn + 1), ts)
      ensures fresh(repr - old(repr)) && old(objs) <= objs
    {
      var next := new Segment(drawn);
      MoreObjects(objs, next, segments, st.segments, levels, st.levels, calls, ts);
      MoreHeap(objs, st.heap, next, Seg(drawn, {}, map[]));
      last := next;
      drawn := drawn + 1;
      objs := objs + [next];
      repr := repr + {next, next.index};
    }

    /** Merges the right object into the left one, renames it and moves it up. */
    method MergeSlots(i: nat, j: nat, ghost st: State, ghost ts: seq<Task>)
      requires Models(st, ts) && PairAt(st, i, j)
      requires st.levels[i][j].value != st.levels[i][j + 1].value
      requires st.heap[st.levels[i][j].value].known !! st.heap[st.levels[i][j + 1].value].live.Keys
      modifies this`levels, this`drawn, this`counter, objs, set o | o in objs :: o.index
      ensures Models(MergePair(st, i, j), ts)
    {
      ghost var hl, hr := st.levels[i][j].value, st.levels[i][j + 1].value;
      assert SlotIs(objs, levels[i][j], st.levels[i][j]) && SlotIs(objs, levels[i][j + 1], st.levels[i][j + 1]);
      var l: Segment, r: Segment := levels[i][j], levels[i][j + 1];
      AbsorbRef(l, r, hl, hr, st.heap);
      levels := PromoteRef(levels, i, j, objs, st.levels);
      counter := counter - 1;
    }

    /** Whether slots (i, j) and (i, j + 1) are taken and their sizes fit the budget; and the two names. */
    method PairFits(i: nat, j: nat, amount: nat, ghost st: State, ghost ts: seq<Task>)
      returns (fits: bool, size: nat, names: seq<SegId>)
      requires Models(st, ts) && i < |st.levels| && j + 1 < |st.levels[i]|
      ensures fits <==> PairAt(st, i, j) && PairSize(st, i, j) <= amount
      ensures fits <==> BothFit(st.heap, st.levels[i][j], st.levels[i][j + 1], amount)
      ensures fits ==> size == PairSize(st, i, j)
      ensures fits ==> names == [st.heap[st.levels[i][j + 1].value].id, st.heap[st.levels[i][j].value].id]
    {
      assert Row(objs, levels[i], st.levels[i]);
      assert SlotIs(objs, levels[i][j], st.levels[i][j]) && SlotIs(objs, levels[i][j + 1], st.levels[i][j + 1]);
      if levels[i][j] == null || levels[i][j + 1] == null {
        return false, 0, [];
      }
      var l: Segment, r: Segment := levels[i][j], levels[i][j + 1];
      var m := SizeOf(l);
      var n := SizeOf(r);
      return m + n <= amount, m + n, [r.segId, l.segId];
    }

    /** One turn of the inner loop: skip, or merge the pair and note its names and its product. */
    method PassTurn(i: nat, j: nat, amount: nat, erased: seq<SegId>, inserted: seq<Segment>,
                    ghost st: State, ghost cur: Task, ghost ts: seq<Task>)
      returns (amount': nat, erased': seq<SegId>, inserted': seq<Segment>)
      requires Models(st, ts) && i < |st.levels| && j + 1 < |st.levels[i]| && PairOk(st, i, j)
      requires erased == cur.erased && Refs(objs, inserted, cur.inserted)
      modifies this`levels, this`drawn, this`counter, objs, set o | o in objs :: o.index
      ensures
        if BothFit(st.heap, st.levels[i][j], st.levels[i][j + 1], amount) then
          var cur' := PairTask(st, cur, i, j);
          && PairAt(st, i, j) && Models(MergePair(st, i, j), ts) && amount' == amount - PairSize(st, i, j)
          && erased' == cur'.erased && Refs(objs, inserted', cur'.inserted)
        else
          Models(st, ts) && amount' == amount && erased' == erased && Refs(objs, inserted', cur.inserted)
    {
      var fits, size, names := PairFits(i, j, amount, st, ts);
      amount', erased', inserted' := amount, erased, inserted;
      if fits {
        amount', erased' := amount - size, erased + names;
        inserted' := MergeNoted(i, j, inserted, st, cur.inserted, ts);
      }
    }

    method MergeNoted(i: nat, j: nat, inserted: seq<Segment>, ghost st: State, ghost hs: seq<nat>, ghost ts: seq<Task>)
      returns (inserted': seq<Segment>)
      requires Models(st, ts) && PairAt(st, i, j) && PairOk(st, i, j) && Refs(objs, inserted, hs)
      modifies this`levels, this`drawn, this`counter, objs, set o | o in objs :: o.index
      ensures Models(MergePair(st, i, j), ts) && Refs(objs, inserted', hs + [st.levels[i][j].value])
    {
      inserted' := inserted + [LeftOf(i, j, st)];
      MergeSlots(i, j, st, ts);
    }

    function LeftOf(i: nat, j: nat, ghost st: State): (l: Segment)
      requires TableIs(objs, levels, st.levels) && PairAt(st, i, j)
      reads this
      ensures st.levels[i][j].value < |objs| && l == objs[st.levels[i][j].value]
    {
      assert Row(objs, levels[i], st.levels[i]);
      assert SlotIs(objs, levels[i][j], st.levels[i][j]);
      levels[i][j]
    }

    /** A turn from one station to the next. */
    method TurnAt(i: nat, j: nat, amount: nat, erased: seq<SegId>, inserted: seq<Segment>,
                  ghost p: Station, ghost next: Station, ghost ts: seq<Task>)
      returns (amount': nat, erased': seq<SegId>, inserted': seq<Segment>)
      requires TurnOk(p, next, i, j) && Models(p.0.st, ts)
      requires amount == p.1 && erased == p.0.cur.erased && Refs(objs, inserted, p.0.cur.inserted)
      modifies this`levels, this`drawn, this`counter, objs, set o | o in objs :: o.index
      ensures Models(next.0.st, ts)
      ensures amount' == next.1 && erased' == next.0.cur.erased && Refs(objs, inserted', next.0.cur.inserted)
    {
      TurnIs(p, next, i, j);
      amount', erased', inserted' := PassTurn(i, j, amount, erased, inserted, p.0.st, p.0.cur, ts);
    }

    /** The inner loop of `merge` over level i. */
    method PassLevel(i: nat, amount: nat, ghost tr: seq<Station>, ghost ts: seq<Task>)
      returns (amount': nat, erased: seq<SegId>, inserted: seq<Segment>)
      requires PassTrail(tr, i) && tr[0].1 == amount && tr[0].0.cur == NO_TASK && Models(tr[0].0.st, ts)
      modifies this`levels, this`drawn, this`counter, objs, set o | o in objs :: o.index
      ensures Models(tr[|tr| - 1].0.st, ts)
      ensures amount' == tr[|tr| - 1].1 && erased == tr[|tr| - 1].0.cur.erased
      ensures Refs(objs, inserted, tr[|tr| - 1].0.cur.inserted)
    {
      amount', erased, inserted := amount, [], [];
      var j := 0;
      PassLength(tr, i, 0);
      while j + 1 < |levels[i]|
        invariant 0 <= j < |tr| && Models(tr[j].0.st, ts)
        invariant i < |levels| && (j + 1 < |levels[i]| <==> j + 1 < |tr|)
        invariant amount' == tr[j].1 && erased == tr[j].0.cur.erased && Refs(objs, inserted, tr[j].0.cur.inserted)
        decreases |tr| - j
      {
        assert TurnOk(Stop(tr, j), tr[j + 1], i, j);
        amount', erased, inserted := TurnAt(i, j, amount', erased, inserted, tr[j], tr[j + 1], ts);
        j := j + 1;
        PassLength(tr, i, j);
      }
    }

    /** The edit of the list after a pass. */
    method SyncList(erased: seq<SegId>, inserted: seq<Segment>, ghost st: State, ghost t: Task, ghost ts: seq<Task>)
      requires Models(st, ts) && HandlesOk(st) && (forall h :: h in t.inserted ==> h < |st.heap|)
      requires erased == t.erased && Refs(objs, inserted, t.inserted)
      modifies this`segments
      ensures Models(SyncSegments(st, t), ts)
    {
      segments := DropNamed(segments + inserted, erased, objs, st.segments + t.inserted, st.heap);
    }

    /** The callback. */
    method Notify(erased: seq<SegId>, inserted: seq<Segment>, ghost st: State, ghost t: Task, ghost ts: seq<Task>)
      requires Models(st, ts) && erased == t.erased && Refs(objs, inserted, t.inserted)
      modifies this`calls
      ensures Models(st, ts + [t])
    {
      calls := calls + [Notice(erased, inserted)];
    }

    /** One turn of the outer loop of `merge`: a pass, the edit of the list, the callback. */
    method MergeLevel(i: nat, amount: nat, ghost p: Station, ghost next: Station) returns (amount': nat)
      requires PassOk(p, next, i) && amount == p.1 && Models(p.0.st, p.0.outbox)
      modifies this`levels, this`drawn, this`counter, this`segments, this`calls, objs, set o | o in objs :: o.index
      ensures Models(next.0.st, next.0.outbox) && amount' == next.1
    {
      ghost var tr: seq<Station> :| PassTrail(tr, i) && Spans(tr, p.0, i, p.1);
      ghost var c: Config := tr[|tr| - 1].0;
      var erased, inserted;
      amount', erased, inserted := PassLevel(i, amount, tr, p.0.outbox);
      SyncList(erased, inserted, c.st, c.cur, p.0.outbox);
      if erased != [] && inserted != [] {
        Notify(erased, inserted, SyncSegments(c.st, c.cur), c.cur, p.0.outbox);
      }
    }

    /** `SegmentStorage::merge` */
    method MergeAll(amount: nat, ghost tr: seq<Station>)
      requires MergeTrail(tr) && tr[0].1 == amount && Models(tr[0].0.st, tr[0].0.outbox)
      modifies this`levels, this`drawn, this`counter, this`segments, this`calls, objs, set o | o in objs :: o.index
      ensures Models(Compact(tr[|tr| - 1].0).st, tr[|tr| - 1].0.outbox)
    {
      var left := amount;
      var i := 0;
      MergeLength(tr, 0);
      while left > 0 && i < |levels|
        invariant 0 <= i < |tr| && Models(tr[i].0.st, tr[i].0.outbox) && left == tr[i].1
        invariant left > 0 && i < |levels| <==> i + 1 < |tr|
        decreases |tr| - i
      {
        assert PassOk(Stop(tr, i), tr[i + 1], i);
        left := MergeLevel(i, left, tr[i], tr[i + 1]);
        i := i + 1;
        MergeLength(tr, i);
      }
      DropNullSlots(tr[|tr| - 1].0.st, tr[|tr| - 1].0.outbox);
    }

    /** The final loop of `merge`: every level drops its null slots. */
    method DropNullSlots(ghost st: State, ghost ts: seq<Task>)
      requires Models(st, ts)
      modifies this`levels
      ensures Models(st.(levels := Compacted(st.levels)), ts)
    {
      var i := 0;
      ghost var rows := levels;
      while i < |levels|
        invariant 0 <= i <= |levels| == |rows|
        invariant forall k :: 0 <= k < i ==> Row(objs, levels[k], DropNulls(st.levels[k]))
        invariant forall k :: i <= k < |levels| ==> levels[k] == rows[k]
      {
        var row := DropNullRefs(levels[i], objs, st.levels[i]);
        levels := levels[i := row];
        i := i + 1;
      }
    }

    /** The first half of `add`: fill and seal, then tell the callback which segments were sealed. */
    method AddFill(docs: seq<Doc>, ghost trail: seq<Config>, ghost ts: seq<Task>)
      requires Trail(trail, threshold, docs) && Models(trail[0].st, ts) && trail[0].cur == NO_TASK
      requires Shape(trail[|docs|]) && trail[|docs|].cur.erased == [] && trail[|docs|].outbox == ts
      modifies repr
      ensures Models(FlushAdd(trail[|docs|]).st, FlushAdd(trail[|docs|]).outbox)
      ensures fresh(repr - old(repr)) && world == old(world)
    {
      var inserted := Fill(docs, trail, ts);
      if inserted != [] {
        Notify([], inserted, trail[|docs|].st, trail[|docs|].cur, ts);
      }
    }

    /** The second half of `add`. */
    method AddMerge(ghost tr: seq<Station>, ghost c: Config, ghost c': Config)
      requires merging ==> MergeTrail(tr) && tr[0].0.st == c.st && tr[0].0.outbox == c.outbox && tr[0].1 == MERGE_AMOUNT
      requires Models(c.st, c.outbox) && c' == if merging then Compact(tr[|tr| - 1].0) else c
      modifies this`levels, this`drawn, this`counter, this`segments, this`calls, objs, set o | o in objs :: o.index
      ensures Models(c'.st, c'.outbox)
    {
      if merging {
        MergeAll(MERGE_AMOUNT, tr);
      }
    }

    /** Both halves of `add`, along the stations of the fill and of the merge. */
    method AddAlong(docs: seq<Doc>, ghost trail: seq<Config>, ghost tr: seq<Station>, ghost c': Config)
      requires Trail(trail, threshold, docs) && Models(trail[0].st, trail[0].outbox) && trail[0].cur == NO_TASK
      requires Shape(trail[|docs|]) && trail[|docs|].cur.erased == [] && trail[|docs|].outbox == trail[0].outbox
      requires
        var c := FlushAdd(trail[|docs|]);
        && (merging ==> MergeTrail(tr) && tr[0].0.st == c.st && tr[0].0.outbox == c.outbox && tr[0].1 == MERGE_AMOUNT)
        && c' == if merging then Compact(tr[|tr| - 1].0) else c
      modifies repr
      ensures Models(c'.st, c'.outbox) && fresh(repr - old(repr)) && world == old(world)
    {
      AddFill(docs, trail, trail[0].outbox);
      AddMerge(tr, FlushAdd(trail[|docs|]), c');
    }

    /** Slots j and j + 1 of level i hold segments with more than this many live documents together. */
    ghost predicate PairExceeds(i: nat, j: nat, left: int)
      requires i < |levels| && j + 1 < |levels[i]|
      reads `levels, `objs, objs, set o | o in objs :: o.index
    {
      && levels[i][j] in objs && levels[i][j + 1] in objs && levels[i][j].Ok() && levels[i][j + 1].Ok()
      && |levels[i][j].Val().live| + |levels[i][j + 1].Val().live| > left
    }

    ghost predicate NeighboursExceed(left: int)
      reads `levels, `objs, objs, set o | o in objs :: o.index
    {
      forall i: nat, j: nat :: i < |levels| && j + 1 < |levels[i]| ==> PairExceeds(i, j, left)
    }

    /** `Index::add`. Each document id is new to the index. With merging, unless documents have moved up 200 levels in
        all, no two neighbours fit what is left of that budget. */
    method Add(docs: seq<Doc>)
      requires Valid() && AllNew(world.added, docs)
      modifies repr
      ensures Shape(old(world).c) && Valid() && world == AddTo(old(world), threshold, merging, docs)
      ensures fresh(repr - old(repr))
      ensures merging ==>
        var moved := Moved(IndexModel.Add(old(world).c, threshold, false, docs).st, world.c.st);
        0 <= moved <= 200 && (moved < 200 ==> NeighboursExceed(200 - moved))
    {
      ghost var w := world;
      world := AddAll(docs);
      if merging {
        AddLeavesNoPair(this, w, docs);
      }
    }

    /** The work of `add`: the fields reach the value model's state, which is a reachable one. */
    method AddAll(docs: seq<Doc>) returns (ghost w': World)
      requires Valid() && AllNew(world.added, docs)
      modifies repr
      ensures Shape(old(world).c) && w' == AddTo(old(world), threshold, merging, docs)
      ensures Models(w'.c.st, w'.c.outbox) && Reached(w', threshold, merging)
      ensures fresh(repr - old(repr)) && world == old(world)
    {
      ghost var trail, tr := AddStations(world, threshold, merging, docs);
      w' := AddTo(world, threshold, merging, docs);
      AddAlong(docs, trail, tr, w'.c);
    }

    method EraseRef(o: Segment, xs: seq<DocId>, ghost h: nat, ghost heap: seq<Seg>)
      requires HeapIs(objs, heap) && h < |objs| && o == objs[h]
      modifies o.index
      ensures HeapIs(objs, heap[h := EraseDocs(heap[h], Elems(xs))])
    {
      o.DeleteBatch(xs);
    }

    /** `Index::erase`: every entry of the list, then the open segment. */
    method Erase(xs: seq<DocId>)
      requires Valid()
      modifies repr
      ensures Valid() && world == EraseFrom(old(world), Elems(xs)) && repr == old(repr)
    {
      EraseList(xs, world.c.st, world.c.outbox);
      ReachedErase(world, threshold, merging, Elems(xs));
      world := EraseFrom(world, Elems(xs));
    }

    method EraseList(xs: seq<DocId>, ghost st: State, ghost ts: seq<Task>)
      requires Models(st, ts)
      modifies set o | o in objs :: o.index
      ensures Models(EraseEverywhere(st, Elems(xs)), ts)
    {
      var i := 0;
      ghost var heap, all := st.heap, Elems(xs);
      while i < |segments|
        invariant 0 <= i <= |segments|
        invariant HeapIs(objs, heap) && ErasedIn(heap, st.heap, st.segments[..i], all)
      {
        ghost var h := st.segments[i];
        ErasedStep(heap, st.heap, st.segments, i, all);
        EraseRef(segments[i], xs, h, heap);
        heap := heap[h := EraseDocs(heap[h], all)];
        i := i + 1;
      }
      assert st.segments[..i] == st.segments;
      ErasedLast(heap, st, all);
      EraseRef(last, xs, st.last, heap);
    }

    /** What the backends of the listed segments and of the open one answer to a query. */
    ghost predicate Answered(dist: Vector -> real, k: nat, answers: seq<seq<int>>)
      reads this, objs, segments, last, (set o | o in segments :: o.index), last.index
    {
      && |answers| == |segments| + 1
      && (forall i :: 0 <= i < |segments| ==>
            BackendAnswer(answers[i], segments[i].index.vectors, dist, k + |segments[i].index.erased|))
      && BackendAnswer(answers[|segments|], last.index.vectors, dist, k + |last.index.erased|)
    }

    /** `Index::search`: offer every segment's answer, then the open segment's, to a set bounded at k, and read it off.
        `docs` is any map the segments read make up, however they overlap. */
    method SearchOver(dist: Vector -> real, k: nat, answers: seq<seq<int>>, ghost docs: Docs, ghost st: State,
        ghost ts: seq<Task>)
      returns (ids: seq<DocId>, ghost found: seq<set<Hit>>)
      requires Models(st, ts) && Answered(dist, k, answers) && ListOk(st) && Search.Covers(Lives(st), docs)
      ensures Search.KNearest(ids, docs, dist, k)
      ensures Search.Answers(Lives(st), found, dist, k) && Search.Foremost(ids, found, docs, dist)
    {
      var kept: set<Hit> := {};
      ghost var lives := Lives(st);
      found := [];
      var i := 0;
      KeptAtStart(lives, dist, k);
      while i < |segments|
        invariant 0 <= i <= |segments| && KeptSoFar(kept, lives[..i], found, dist, k)
      {
        assert objs[st.segments[i]].Val() == st.heap[st.segments[i]];
        kept, found := OfferSegment(segments[i], dist, k, answers[i], kept, lives, i, found);
        i := i + 1;
      }
      kept, found := OfferSegment(last, dist, k, answers[i], kept, lives, i, found);
      assert lives[..i + 1] == lives;
      KeptAtEnd(kept, lives, found, docs, dist, k);
      ids := Search.ReadOff(kept, dist, k, docs);
      ForemostAtEnd(ids, kept, lives, found, docs, dist, k);
    }

    /** Search on the writer's index: k nearest of the documents added and not erased. */
    method SearchNearest(dist: Vector -> real, k: nat, answers: seq<seq<int>>)
      returns (ids: seq<DocId>, ghost found: seq<set<Hit>>)
      requires Valid() && Answered(dist, k, answers)
      ensures Search.KNearest(ids, world.plain, dist, k)
      ensures Search.Answers(Lives(world.c.st), found, dist, k) && Search.Foremost(ids, found, world.plain, dist)
    {
      ReachedCovers(world, threshold, merging);
      ids, found := SearchOver(dist, k, answers, world.plain, world.c.st, world.c.outbox);
    }

    /** A fetched segment joins the levels and the list. */
    method Join(segment: Segment, ghost st: State, ghost ts: seq<Task>)
      requires Models(st, ts) && segment.Ok()
      requires forall a :: 0 <= a < |objs| ==> objs[a] != segment && objs[a].index != segment.index
      modifies this`levels, this`counter, this`sz, this`segments, this`objs, this`repr
      ensures Models(PushSegment(st, segment.Val()), ts) && objs == old(objs) + [segment]
      ensures repr == old(repr) + {segment, segment.index}
    {
      ghost var seg, h := segment.Val(), |st.heap|;
      MoreObjects(objs, segment, segments, st.segments, levels, st.levels, calls, ts);
      MoreHeap(objs, st.heap, segment, seg);
      objs := objs + [segment];
      repr := repr + {segment, segment.index};
      ghost var st' := st.(heap := st.heap + [seg]);
      Enlist(segment, h, st', ts);
      assert Enlisted(st', h) == PushSegment(st, seg);
    }

    /** `pushSegment`: the callback, if there is one, hears of the segment. */
    method Push(segment: Segment, subscribed: bool, ghost st: State, ghost ts: seq<Task>)
      requires Models(st, ts) && segment.Ok()
      requires forall a :: 0 <= a < |objs| ==> objs[a] != segment && objs[a].index != segment.index
      modifies this`levels, this`counter, this`sz, this`segments, this`objs, this`repr, this`calls
      ensures Models(PushSegment(st, segment.Val()), if subscribed then ts + [Task([], [|st.heap|])] else ts)
      ensures repr == old(repr) + {segment, segment.index}
    {
      ghost var st', h := PushSegment(st, segment.Val()), |st.heap|;
      Join(segment, st, ts);
      if subscribed {
        Notify([], [segment], st', Task([], [h]), ts);
      }
    }

    /** `eraseSegment`: looks the name up and removes nothing. */
    method FindSegment(id: SegId, ghost st: State, ghost ts: seq<Task>) returns (found: bool)
      requires Models(st, ts) && HandlesOk(st)
      ensures found <==> exists i :: 0 <= i < |segments| && segments[i].segId == id
      ensures found <==> exists h :: h in st.segments && st.heap[h].id == id
    {
      found := false;
      var i := 0;
      while i < |segments|
        invariant 0 <= i <= |segments|
        invariant found <==> exists k :: 0 <= k < i && segments[k].segId == id
      {
        if segments[i].segId == id {
          found := true;
        }
        i := i + 1;
      }
      ListedName(objs, segments, st.segments, st.heap, id);
    }

    method AbsorbRef(l: Segment, r: Segment, ghost hl: nat, ghost hr: nat, ghost heap: seq<Seg>)
      requires HeapIs(objs, heap) && hl < |objs| && hr < |objs| && hl != hr && l == objs[hl] && r == objs[hr]
      requires heap[hl].known !! heap[hr].live.Keys
      modifies this`drawn, l, l.index
      ensures HeapIs(objs, heap[hl := Absorb(heap[hl], heap[hr], old(drawn))]) && drawn == old(drawn) + 1
    {
      ghost var order := l.MergeSegment(r);
      l.segId := drawn;
      drawn := drawn + 1;
    }
  }

  /** The objects in hs have marked the ids, the others have not. */
  ghost predicate ErasedIn(heap: seq<Seg>, before: seq<Seg>, hs: seq<nat>, xs: set<DocId>) {
    && |heap| == |before|
    && forall h :: 0 <= h < |heap| ==> heap[h] == if h in hs then EraseDocs(before[h], xs) else before[h]
  }

  lemma {:induction false} ErasedStep(heap: seq<Seg>, before: seq<Seg>, hs: seq<nat>, i: nat, xs: set<DocId>)
    requires i < |hs| && hs[i] < |heap| && ErasedIn(heap, before, hs[..i], xs)
    ensures ErasedIn(heap[hs[i] := EraseDocs(heap[hs[i]], xs)], before, hs[..i + 1], xs)
  {
    assert hs[..i + 1] == hs[..i] + [hs[i]];
    var live := before[hs[i]].live;
    assert live - xs - xs == live - xs;
  }

  lemma {:induction false} ErasedLast(heap: seq<Seg>, st: State, xs: set<DocId>)
    requires ErasedIn(heap, st.heap, st.segments, xs) && st.last < |heap|
    ensures heap[st.last := EraseDocs(heap[st.last], xs)] == EraseEverywhere(st, xs).heap
  {
    var live := st.heap[st.last].live;
    assert live - xs - xs == live - xs;
  }

  lemma {:induction false} AddMergeTrail(w: World, t: nat, docs: seq<Doc>) returns (tr: seq<Station>)
    requires Reached(w, t, true) && AllNew(w.added, docs)
    ensures Shape(w.c) && Shape(PutAll(w.c, t, docs))
    ensures
      var c := FlushAdd(PutAll(w.c, t, docs));
      && MergeTrail(tr) && tr[0].0.st == c.st && tr[0].0.outbox == c.outbox && tr[0].1 == MERGE_AMOUNT
      && Add(w.c, t, true, docs) == Compact(tr[|tr| - 1].0)
  {
    ReachedInv(w, t, true);
    FilledInv(w, t, docs);
    PutAllKeepsShape(w.c, t, docs);
    tr := MakeMergeTrail(AddTo(w, t, false, docs), t, MERGE_AMOUNT);
  }

  ghost predicate ListOk(st: State) {
    st.last < |st.heap| && forall h :: h in st.segments ==> h < |st.heap|
  }

  /** The documents behind each entry of the list and behind the open segment. */
  ghost function Lives(st: State): (lives: seq<Docs>)
    requires ListOk(st)
    ensures |lives| == |st.segments| + 1 && lives[|st.segments|] == st.heap[st.last].live
    ensures forall i :: 0 <= i < |st.segments| ==>
      st.segments[i] < |st.heap| && lives[i] == st.heap[st.segments[i]].live
  {
    assert forall i :: 0 <= i < |st.segments| ==> st.segments[i] in st.segments;
    seq(|st.segments|, i requires 0 <= i < |st.segments| => st.heap[st.segments[i]].live) + [st.heap[st.last].live]
  }

  lemma {:induction false} OneMoreAnswer(lives: seq<Docs>, i: nat, found: seq<set<Hit>>, all: set<Hit>,
      hits: set<Hit>, dist: Vector -> real, k: nat)
    requires i < |lives| && Search.Answers(lives[..i], found, dist, k) && Search.Union(all, found)
    requires Search.Nearest(hits, lives[i], dist, k)
    ensures Search.Answers(lives[..i + 1], found + [hits], dist, k) && Search.Union(all + hits, found + [hits])
  {
    forall h | h in all + hits ensures Search.FoundBySome(found + [hits], h) {
      if h in hits {
        assert h in (found + [hits])[i];
      } else {
        assert Search.FoundBySome(found, h);
        var j :| 0 <= j < |found| && h in found[j];
        assert h in (found + [hits])[j];
      }
    }
  }

  /** In every reachable state the segments a search reads make up the plain map. */
  lemma {:induction false} ReachedCovers(w: World, t: nat, merging: bool)
    requires Reached(w, t, merging)
    ensures ListOk(w.c.st) && Search.Covers(Lives(w.c.st), w.plain)
  {
    ReachedInv(w, t, merging);
    CoreCovers(w.c.st, w.plain, w.added);
  }

  lemma {:induction false} CoreCovers(st: State, plain: Docs, added: Docs)
    requires CoreInv(st, plain, added)
    ensures Search.Covers(Lives(st), plain)
  {
    var lives := Lives(st);
    forall i | 0 <= i < |lives| ensures SubMap(lives[i], plain) {
      if i < |st.segments| {
        assert st.segments[i] in st.segments;
      }
    }
    forall x | x in plain ensures Search.HeldBySome(lives, x) {
      if Holds(st.heap, st.last, x) {
        assert x in lives[|st.segments|];
      } else {
        var h :| h in LevelSet(st) && Holds(st.heap, h, x);
        var i :| 0 <= i < |st.segments| && st.segments[i] == h;
        assert x in lives[i];
      }
    }
  }

  /** The stations of both halves of `add`. */
  lemma {:induction false} AddStations(w: World, t: nat, merging: bool, docs: seq<Doc>)
    returns (trail: seq<Config>, tr: seq<Station>)
    requires Reached(w, t, merging) && AllNew(w.added, docs)
    ensures Trail(trail, t, docs) && trail[0] == w.c && w.c.cur == NO_TASK
    ensures Shape(trail[|docs|]) && trail[|docs|].cur.erased == [] && trail[|docs|].outbox == w.c.outbox
    ensures
      var c := FlushAdd(trail[|docs|]);
      && (merging ==> MergeTrail(tr) && tr[0].0.st == c.st && tr[0].0.outbox == c.outbox && tr[0].1 == MERGE_AMOUNT)
      && Shape(w.c)
      && Add(w.c, t, merging, docs) == (if merging then Compact(tr[|tr| - 1].0) else c)
    ensures Reached(AddTo(w, t, merging, docs), t, merging)
  {
    trail := MakeTrail(w, t, merging, docs);
    ReachedAdd(w, t, merging, docs);
    tr := [];
    if merging {
      tr := AddMergeTrail(w, t, docs);
    }
  }

  lemma {:induction false} FilledInv(w: World, t: nat, docs: seq<Doc>)
    requires Inv(w, t) && Idle(w.c) && AllNew(w.added, docs)
    ensures Inv(AddTo(w, t, false, docs), t) && Idle(Add(w.c, t, false, docs))
  {
    var ms := AddRuns(w, t, false, docs);
    RunsKeepInv(w, t, ms, AddTo(w, t, false, docs));
  }

  /** `kept` are the k best of what the segments asked so far have found. */
  ghost predicate KeptSoFar(kept: set<Hit>, lives: seq<Docs>, found: seq<set<Hit>>, dist: Vector -> real, k: nat) {
    Search.Answers(lives, found, dist, k) && exists all :: Search.Union(all, found) && KLeast(kept, all, k)
  }

  lemma {:induction false} KeptAtStart(lives: seq<Docs>, dist: Vector -> real, k: nat)
    ensures KeptSoFar({}, lives[..0], [], dist, k)
  {
    assert Search.Union({}, []) && KLeast({}, {}, k);
  }

  lemma {:induction false} KeptAtEnd(kept: set<Hit>, lives: seq<Docs>, found: seq<set<Hit>>, docs: Docs,
      dist: Vector -> real, k: nat)
    requires KeptSoFar(kept, lives, found, dist, k) && Search.Covers(lives, docs)
    ensures Search.Nearest(kept, docs, dist, k)
  {
    var all :| Search.Union(all, found) && KLeast(kept, all, k);
    Search.KeptIsNearest(lives, found, docs, dist, k, all, kept);
  }

  lemma {:induction false} ForemostAtEnd(ids: seq<DocId>, kept: set<Hit>, lives: seq<Docs>, found: seq<set<Hit>>,
      docs: Docs, dist: Vector -> real, k: nat)
    requires KeptSoFar(kept, lives, found, dist, k)
    requires kept == set x | x in ids && x in docs :: Hit(dist(docs[x]), x)
    ensures Search.Foremost(ids, found, docs, dist)
  {
    var all :| Search.Union(all, found) && KLeast(kept, all, k);
    Search.KeptIsForemost(ids, found, docs, dist, k, all, kept);
  }

  /** Asks one segment and offers what it found to the bounded set. */
  method OfferSegment(segment: Segment, dist: Vector -> real, k: nat, res: seq<int>, kept: set<Hit>,
                      ghost lives: seq<Docs>, ghost i: nat, ghost found: seq<set<Hit>>)
    returns (kept': set<Hit>, ghost found': seq<set<Hit>>)
    requires i < |lives| && segment.Ok() && segment.Val().live == lives[i] &&
      KeptSoFar(kept, lives[..i], found, dist, k)
    requires BackendAnswer(res, segment.index.vectors, dist, k + |segment.index.erased|)
    ensures KeptSoFar(kept', lives[..i + 1], found', dist, k)
  {
    ghost var all :| Search.Union(all, found) && KLeast(kept, all, k);
    ghost var slots;
    var answer;
    answer, slots := segment.SearchQuery(dist, k, res);
    kept' := Search.OfferAll(kept, answer, k, all);
    OneMoreAnswer(lives, i, found, all, Search.HitSet(answer), dist, k);
    found' := found + [Search.HitSet(answer)];
  }

  method DropNullRefs(row: seq<Segment?>, ghost objs: seq<Segment>, ghost level: seq<Slot>) returns (r: seq<Segment?>)
    requires Row(objs, row, level)
    ensures Row(objs, r, DropNulls(level))
  {
    r := [];
    var j := 0;
    assert level[..0] == [];
    while j < |row|
      invariant 0 <= j <= |row|
      invariant Row(objs, r, DropNulls(level[..j]))
    {
      assert SlotIs(objs, row[j], level[j]);
      assert level[..j + 1][..j] == level[..j];
      if row[j] != null {
        r := r + [row[j]];
      }
      j := j + 1;
    }
    assert level[..|level|] == level;
  }

  lemma {:induction false} RemoveFirstAt(hs: seq<nat>, heap: seq<Seg>, id: SegId, k: nat)
    requires (forall h :: h in hs ==> h < |heap|) && k <= |hs|
    requires forall i :: 0 <= i < k ==> hs[i] < |heap| && heap[hs[i]].id != id
    requires k < |hs| ==> hs[k] < |heap| && heap[hs[k]].id == id
    ensures RemoveFirst(hs, heap, id) == if k < |hs| then hs[..k] + hs[k + 1..] else hs
  {
    var first := StorageLaws.FirstBearerGoes(hs, heap, id);
    assert first == k;
  }

  /** `find_if` by name, then `erase` of the entry found, if any. */
  method DropOne(ss: seq<Segment>, id: SegId, ghost objs: seq<Segment>, ghost hs: seq<nat>, ghost heap: seq<Seg>)
    returns (r: seq<Segment>)
    requires HeapIs(objs, heap) && Refs(objs, ss, hs) && (forall h :: h in hs ==> h < |heap|)
    ensures Refs(objs, r, RemoveFirst(hs, heap, id))
  {
    var k := 0;
    while k < |ss| && ss[k].segId != id
      invariant 0 <= k <= |ss|
      invariant forall i :: 0 <= i < k ==> hs[i] < |heap| && heap[hs[i]].id != id
    {
      assert objs[hs[k]].Val() == heap[hs[k]];
      k := k + 1;
    }
    if k < |ss| {
      assert objs[hs[k]].Val() == heap[hs[k]];
    }
    RemoveFirstAt(hs, heap, id, k);
    r := if k < |ss| then ss[..k] + ss[k + 1..] else ss;
  }

  method DropNamed(ss: seq<Segment>, ids: seq<SegId>, ghost objs: seq<Segment>, ghost hs: seq<nat>,
      ghost heap: seq<Seg>)
    returns (r: seq<Segment>)
    requires HeapIs(objs, heap) && Refs(objs, ss, hs) && (forall h :: h in hs ==> h < |heap|)
    ensures Refs(objs, r, RemoveNamed(hs, heap, ids))
  {
    r := ss;
    ghost var left: seq<nat> := hs;
    var i := 0;
    while i < |ids|
      invariant 0 <= i <= |ids|
      invariant (forall h :: h in left ==> h < |heap|) && Refs(objs, r, left)
      invariant RemoveNamed(hs, heap, ids) == RemoveNamed(left, heap, ids[i..])
    {
      r := DropOne(r, ids[i], objs, left, heap);
      left := RemoveFirst(left, heap, ids[i]);
      assert ids[i..][1..] == ids[i + 1..];
      i := i + 1;
    }
  }

  method PromoteRef(levels: seq<seq<Segment?>>, i: nat, j: nat, ghost objs: seq<Segment>, ghost tbl: LevelTable)
    returns (r: seq<seq<Segment?>>)
    requires TableIs(objs, levels, tbl) && i < |tbl| && j + 1 < |tbl[i]| && j + 1 < |levels[i]|
    ensures TableIs(objs, r, Promote(tbl, i, j))
  {
    r := levels;
    if i + 1 == |r| {
      r := r + [[]];
    }
    assert SlotIs(objs, levels[i][j], tbl[i][j]);
    r := r[i + 1 := r[i + 1] + [r[i][j]]];
    r := r[i := r[i][j := null][j + 1 := null]];
  }

  /** The level choice of `SegmentStorage::add`: shift until the size fits, growing the table on the way. */
  method PlaceRef(levels: seq<seq<Segment?>>, segment: Segment, size: nat,
                  ghost objs: seq<Segment>, ghost tbl: LevelTable, ghost h: nat) returns (r: seq<seq<Segment?>>)
    requires TableIs(objs, levels, tbl) && h < |objs| && segment == objs[h]
    ensures TableIs(objs, r, Place(tbl, h, size))
  {
    r := levels;
    var i := 0;
    while Pow2(i) < size
      invariant TableIs(objs, r, GrowTo(tbl, i))
      invariant CeilLog(size, 0) == CeilLog(size, i)
      decreases size - Pow2(i)
    {
      GrowRef(objs, r, tbl, i);
      if i == |r| {
        r := r + [[]];
      }
      i := i + 1;
    }
    ghost var grown := GrowTo(tbl, i);
    i := if i == 0 then 0 else i - 1;
    assert GrowTo(grown, i) == grown;
    GrowRef(objs, r, grown, i);
    if i == |r| {
      r := r + [[]];
    }
    PushRef(objs, r, GrowTo(grown, i + 1), i, h);
    r := r[i := r[i] + [segment]];
  }

  lemma {:induction false} GrowRef(objs: seq<Segment>, r: seq<seq<Segment?>>, tbl: LevelTable, i: nat)
    requires TableIs(objs, r, GrowTo(tbl, i))
    ensures TableIs(objs, if i == |r| then r + [[]] else r, GrowTo(tbl, i + 1))
  {
    GrowStep(tbl, i);
  }

  lemma {:induction false} PushRef(objs: seq<Segment>, r: seq<seq<Segment?>>, tbl: LevelTable, i: nat, h: nat)
    requires TableIs(objs, r, tbl) && i < |r| && h < |objs|
    ensures TableIs(objs, r[i := r[i] + [objs[h]]], tbl[i := tbl[i] + [Some(h)]])
  {
  }

  lemma {:induction false} GrowStep(levels: LevelTable, i: nat)
    ensures GrowTo(levels, i + 1) == (if |GrowTo(levels, i)| == i then GrowTo(levels, i) + [[]] else GrowTo(levels, i))
    decreases i - |levels|
  {
    if |levels| < i {
      GrowStep(levels + [[]], i);
    } else if |levels| == i {
      assert GrowTo(levels, i + 1) == GrowTo(levels + [[]], i + 1);
    }
  }
}
