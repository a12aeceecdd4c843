/** The worlds an index can be in: those some run of operations leads to. */
module IndexHistory {
  import opened Prelude
  import opened IndexModel
  import opened IndexRuns

  ghost function WorldAfter(t: nat, merging: bool, ops: seq<Op>): World {
    World(DoAll(Begin(), t, merging, ops), PlainAll(map[], ops), AddedAll(map[], ops))
  }

  /** Some run of operations leads here, every document new when it was added. */
  ghost predicate Reached(w: World, t: nat, merging: bool) {
    t >= 1 && exists ops :: Legal(map[], ops) && w == WorldAfter(t, merging, ops)
  }

  lemma {:induction false} ReachedInv(w: World, t: nat, merging: bool)
    requires Reached(w, t, merging)
    ensures Inv(w, t) && Idle(w.c)
  {
    var ops :| Legal(map[], ops) && w == WorldAfter(t, merging, ops);
    EveryRunServesThePlainMap(t, merging, ops);
  }

  lemma {:induction false} StartReached(t: nat, merging: bool)
    requires t >= 1
    ensures Reached(EMPTY_WORLD, t, merging)
  {
    assert Legal(map[], []) && EMPTY_WORLD == WorldAfter(t, merging, []);
  }

  // ---------------------------------------------------------------- one more operation

  lemma {:induction false} DoOneMore(c: Config, t: nat, merging: bool, ops: seq<Op>, op: Op)
    requires Shape(c)
    ensures DoAll(c, t, merging, ops + [op]) == Do(DoAll(c, t, merging, ops), t, merging, op)
    decreases |ops|
  {
    if ops == [] {
      assert ops + [op] == [op] && [op][1..] == [];
    } else {
      assert (ops + [op])[0] == ops[0] && (ops + [op])[1..] == ops[1..] + [op];
      DoOneMore(Do(c, t, merging, ops[0]), t, merging, ops[1..], op);
    }
  }

  lemma {:induction false} MapsOneMore(m: Docs, ops: seq<Op>, op: Op)
    ensures PlainAll(m, ops + [op]) == (match op case AddOp(docs) => Extend(PlainAll(m, ops), docs)
      case EraseOp(xs) => PlainAll(m, ops) - xs)
    ensures AddedAll(m, ops + [op]) == (match op case AddOp(docs) => Extend(AddedAll(m, ops), docs)
      case EraseOp(_) => AddedAll(m, ops))
    decreases |ops|
  {
    if ops == [] {
      assert ops + [op] == [op] && [op][1..] == [];
    } else {
      assert (ops + [op])[0] == ops[0] && (ops + [op])[1..] == ops[1..] + [op];
      match ops[0]
      case AddOp(docs) => MapsOneMore(Extend(m, docs), ops[1..], op);
      case EraseOp(xs) => MapsOneMore(m - xs, ops[1..], op);
        MapsOneMore(m, ops[1..], op);
    }
  }

  lemma {:induction false} LegalOneMore(m: Docs, ops: seq<Op>, op: Op)
    requires Legal(m, ops) && (op.AddOp? ==> AllNew(AddedAll(m, ops), op.docs))
    ensures Legal(m, ops + [op])
    decreases |ops|
  {
    if ops == [] {
      assert ops + [op] == [op] && [op][1..] == [];
    } else {
      assert (ops + [op])[0] == ops[0] && (ops + [op])[1..] == ops[1..] + [op];
      match ops[0]
      case AddOp(docs) => LegalOneMore(Extend(m, docs), ops[1..], op);
      case EraseOp(_) => LegalOneMore(m, ops[1..], op);
    }
  }

  lemma {:induction false} ReachedAdd(w: World, t: nat, merging: bool, docs: seq<Doc>)
    requires Reached(w, t, merging) && AllNew(w.added, docs)
    ensures Shape(w.c) && Reached(AddTo(w, t, merging, docs), t, merging)
  {
    var ops :| Legal(map[], ops) && w == WorldAfter(t, merging, ops);
    DoOneMore(Begin(), t, merging, ops, AddOp(docs));
    MapsOneMore(map[], ops, AddOp(docs));
    LegalOneMore(map[], ops, AddOp(docs));
    assert AddTo(w, t, merging, docs) == WorldAfter(t, merging, ops + [AddOp(docs)]);
  }

  ghost function EraseFrom(w: World, xs: set<DocId>): World {
    World(Erase(w.c, xs), w.plain - xs, w.added)
  }

  lemma {:induction false} ReachedErase(w: World, t: nat, merging: bool, xs: set<DocId>)
    requires Reached(w, t, merging)
    ensures Reached(EraseFrom(w, xs), t, merging)
  {
    var ops :| Legal(map[], ops) && w == WorldAfter(t, merging, ops);
    DoOneMore(Begin(), t, merging, ops, EraseOp(xs));
    MapsOneMore(map[], ops, EraseOp(xs));
    LegalOneMore(map[], ops, EraseOp(xs));
    assert EraseFrom(w, xs) == WorldAfter(t, merging, ops + [EraseOp(xs)]);
  }
}
