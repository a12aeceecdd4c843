/** Every step of the index keeps the invariant: adding a document, sealing, merging a pair, the edits after a
    pass, compaction and erase. */
module IndexSteps {
  import opened Prelude
  import opened Levels
  import opened IndexModel
  import opened IndexInvariant

  ghost function LevelSet(st: State): (lv: set<nat>)
    ensures forall h :: h in lv <==> h in Bag(st.levels)
  {
    set h | h in Bag(st.levels)
  }

  /** Every object in the levels has one slot there and at least one entry in the list. */
  ghost predicate Listed(st: State) {
    && st.last < |st.heap|
    && st.last !in st.segments
    && (forall h :: h in Bag(st.levels) ==> Bag(st.levels)[h] == 1)
    && (forall h :: h in Bag(st.levels) ==> h in st.segments)
    && (forall h :: h in Bag(st.levels) ==> h < |st.heap|)
    && st.counter == |Bag(st.levels)|
  }

  ghost predicate CoreInv(st: State, plain: Docs, added: Docs) {
    && HandlesOk(st)
    && Listed(st)
    && Names(st.heap, st.drawn)
    && Owned(st.heap, added)
    && Apart(st.heap, LevelSet(st))
    && LastApart(st.heap, st.last)
    && Faithful(st.heap, st.segments, st.last, plain)
    && Complete(st.heap, LevelSet(st), st.last, plain)
    && Covered(st.heap, st.segments, LevelSet(st))
    && SubMap(plain, added)
  }

  // ------------------------------------------------------------------------ put

  lemma {:induction false} PutDocCore(st: State, plain: Docs, added: Docs, d: Doc)
    requires CoreInv(st, plain, added) && d.id !in added
    ensures CoreInv(PutDoc(st, d), plain[d.id := d.vec], added[d.id := d.vec])
    ensures PutDoc(st, d).heap[st.last].Size() == st.heap[st.last].Size() + 1
  {
    DocOwned(st.heap, st.last, added, d);
    DocApart(st.heap, LevelSet(st), st.last, added, d);
    DocContents(st.heap, st.segments, LevelSet(st), st.last, plain, d);
  }

  lemma {:induction false} SealHandles(st: State)
    requires HandlesOk(st)
    ensures HandlesOk(SealLast(st))
  {
    PlaceHandles(st.levels, st.last, st.heap[st.last].Size(), |st.heap| + 1);
  }

  lemma {:induction false} SealBag(st: State)
    requires st.last < |st.heap|
    ensures Bag(SealLast(st).levels) == Bag(st.levels) + multiset{st.last}
    ensures LevelSet(SealLast(st)) == LevelSet(st) + {st.last}
  {
    PlaceBag(st.levels, st.last, st.heap[st.last].Size());
  }

  lemma {:induction false} SealListed(st: State)
    requires HandlesOk(st) && Listed(st)
    ensures Listed(SealLast(st))
  {
    SealBag(st);
    var bag, bag' := Bag(st.levels), Bag(SealLast(st).levels);
    assert st.last !in bag;
    assert forall h :: h in bag' <==> h in bag || h == st.last;
  }

  lemma {:induction false} SealCore(st: State, plain: Docs, added: Docs)
    requires CoreInv(st, plain, added)
    ensures CoreInv(SealLast(st), plain, added)
    ensures SealLast(st).heap[SealLast(st).last].Size() == 0
  {
    SealHandles(st);
    SealBag(st);
    SealListed(st);
    SealNames(st.heap, st.drawn);
    SealApart(st.heap, LevelSet(st), st.last, st.drawn, added);
    SealContents(st.heap, st.segments, LevelSet(st), st.last, st.drawn, plain);
  }

  // ----------------------------------------------------------------------- pair

  /** Two slots taken once each hold different objects, and promoting the pair takes out the right one alone. */
  lemma {:induction false} PairSlotsApart(levels: LevelTable, i: nat, j: nat, l: nat, r: nat)
    requires i < |levels| && j + 1 < |levels[i]| && levels[i][j] == Some(l) && levels[i][j + 1] == Some(r)
    requires forall h :: h in Bag(levels) ==> Bag(levels)[h] == 1
    ensures l != r && l in Bag(levels) && r in Bag(levels)
    ensures forall h :: h in Bag(Promote(levels, i, j)) <==> h in Bag(levels) && h != r
    ensures forall h :: h in Bag(Promote(levels, i, j)) ==> Bag(Promote(levels, i, j))[h] == 1
    ensures |Bag(Promote(levels, i, j))| == |Bag(levels)| - 1
  {
    PromoteBag(levels, i, j);
    InBag(levels, i, j);
    InBag(levels, i, j + 1);
    assert multiset{l, r} <= Bag(levels);
    assert l != r;
  }

  lemma {:induction false} PairListed(st: State, i: nat, j: nat)
    requires HandlesOk(st) && Listed(st) && PairAt(st, i, j)
    ensures HandlesOk(MergePair(st, i, j)) && Listed(MergePair(st, i, j))
    ensures
      var l, r := st.levels[i][j].value, st.levels[i][j + 1].value;
      && l != r && l in LevelSet(st) && r in LevelSet(st)
      && LevelSet(MergePair(st, i, j)) == LevelSet(st) - {r}
  {
    PairSlotsApart(st.levels, i, j, st.levels[i][j].value, st.levels[i][j + 1].value);
    var c := Config(st, Passing(i), NO_TASK, [], {});
    PairKeepsShape(c, i, j);
  }

  lemma {:induction false} PairCore(st: State, plain: Docs, added: Docs, i: nat, j: nat)
    requires CoreInv(st, plain, added) && PairAt(st, i, j)
    ensures CoreInv(MergePair(st, i, j), plain, added)
  {
    var l, r := st.levels[i][j].value, st.levels[i][j + 1].value;
    PairListed(st, i, j);
    PairNames(st.heap, l, r, st.drawn, added);
    PairApart(st.heap, LevelSet(st), l, r, st.last, st.drawn, added);
    PairContents(st.heap, st.segments, LevelSet(st), l, r, st.last, st.drawn, plain);
    PairCovered(st.heap, st.segments, LevelSet(st), l, r, st.drawn);
  }

  /** The product of a merge holds the documents of both parts, counted once. */
  lemma {:induction false} PairSizeAdds(st: State, plain: Docs, added: Docs, i: nat, j: nat)
    requires CoreInv(st, plain, added) && PairAt(st, i, j)
    ensures MergePair(st, i, j).heap[st.levels[i][j].value].Size() == PairSize(st, i, j)
  {
    var l, r := st.levels[i][j].value, st.levels[i][j + 1].value;
    PairListed(st, i, j);
    var a, b := st.heap[l].live, st.heap[r].live;
    assert st.heap[l].known !! st.heap[r].known;
    assert (a + b).Keys == a.Keys + b.Keys;
    assert |(a + b).Keys| == |a + b|;
    assert a.Keys !! b.Keys;
  }

  // -------------------------------------------------------------- the list edit

  lemma {:induction false} RemoveFirstKeeps(segments: seq<nat>, heap: seq<Seg>, id: SegId, h: nat)
    requires forall g :: g in segments ==> g < |heap|
    requires h in segments && heap[h].id != id
    ensures h in RemoveFirst(segments, heap, id)
  {
    assert segments[0] in segments && forall g :: g in segments[1..] ==> g in segments;
    if heap[segments[0]].id != id && h != segments[0] {
      RemoveFirstKeeps(segments[1..], heap, id, h);
    }
  }

  lemma {:induction false} RemoveNamedKeeps(segments: seq<nat>, heap: seq<Seg>, ids: seq<SegId>, h: nat)
    requires forall g :: g in segments ==> g < |heap|
    requires h in segments && heap[h].id !in ids
    ensures h in RemoveNamed(segments, heap, ids)
    decreases |ids|
  {
    if ids != [] {
      assert ids[0] in ids;
      RemoveFirstKeeps(segments, heap, ids[0], h);
      RemoveNamedKeeps(RemoveFirst(segments, heap, ids[0]), heap, ids[1..], h);
    }
  }

  lemma {:induction false} RemoveFirstCount(segments: seq<nat>, heap: seq<Seg>, drawn: nat, id: SegId, h: nat)
    requires Names(heap, drawn) && (forall g :: g in segments ==> g < |heap|) && h < |heap|
    ensures
      var n := multiset(segments)[h];
      multiset(RemoveFirst(segments, heap, id))[h] == if heap[h].id == id && n > 0 then n - 1 else n
  {
    if segments != [] {
      assert segments[0] in segments && forall g :: g in segments[1..] ==> g in segments;
      assert segments == [segments[0]] + segments[1..];
      assert multiset(segments) == multiset{segments[0]} + multiset(segments[1..]);
      if heap[segments[0]].id != id {
        RemoveFirstCount(segments[1..], heap, drawn, id, h);
      }
    }
  }

  /** Removal by name takes one entry of an object per time its current name is recorded, and no other entry:
      an object whose name changed since it was recorded keeps all its entries. */
  lemma {:induction false} RemoveNamedCount(segments: seq<nat>, heap: seq<Seg>, drawn: nat, ids: seq<SegId>, h: nat)
    requires Names(heap, drawn) && (forall g :: g in segments ==> g < |heap|) && h < |heap|
    ensures
      var n, k := multiset(segments)[h], multiset(ids)[heap[h].id];
      multiset(RemoveNamed(segments, heap, ids))[h] == if n > k then n - k else 0
    decreases |ids|
  {
    if ids != [] {
      assert ids == [ids[0]] + ids[1..];
      assert multiset(ids) == multiset{ids[0]} + multiset(ids[1..]);
      RemoveFirstCount(segments, heap, drawn, ids[0], h);
      RemoveNamedCount(RemoveFirst(segments, heap, ids[0]), heap, drawn, ids[1..], h);
    }
  }

  ghost predicate Unused(st: State, ids: seq<SegId>) {
    forall h :: h in LevelSet(st) && h < |st.heap| ==> st.heap[h].id !in ids
  }

  /** Products are listed again and names are removed, yet every segment of the levels stays listed. */
  lemma {:induction false} SyncCore(st: State, plain: Docs, added: Docs, t: Task)
    requires CoreInv(st, plain, added)
    requires forall h :: h in t.inserted ==> h in LevelSet(st)
    requires Unused(st, t.erased)
    ensures (forall h :: h in t.inserted ==> h < |st.heap|) && CoreInv(SyncSegments(st, t), plain, added)
  {
    assert forall h :: h in t.inserted ==> h < |st.heap|;
    var st' := SyncSegments(st, t);
    forall h | h in Bag(st.levels) ensures h in st'.segments {
      assert h in LevelSet(st);
      RemoveNamedKeeps(st.segments + t.inserted, st.heap, t.erased, h);
    }
    assert forall h :: h in st'.segments ==> h in st.segments || h in t.inserted;
    assert forall h :: h in st'.segments ==> h in st.segments;
    assert LevelSet(st') == LevelSet(st);
  }

  lemma {:induction false} CompactCore(st: State, plain: Docs, added: Docs)
    requires CoreInv(st, plain, added)
    ensures CoreInv(st.(levels := Compacted(st.levels)), plain, added)
    ensures LevelSet(st.(levels := Compacted(st.levels))) == LevelSet(st)
  {
    CompactedBag(st.levels);
    CompactKeepsShape(Config(st, Filling, NO_TASK, [], {}));
    assert LevelSet(st.(levels := Compacted(st.levels))) == LevelSet(st);
  }

  // ---------------------------------------------------------------------- erase

  lemma {:induction false} EraseCore(st: State, plain: Docs, added: Docs, xs: set<DocId>)
    requires CoreInv(st, plain, added)
    ensures CoreInv(EraseEverywhere(st, xs), plain - xs, added)
    ensures EraseEverywhere(st, xs).heap[st.last].Size() <= st.heap[st.last].Size()
  {
    EraseClauses(st.heap, st.segments, LevelSet(st), st.last, st.drawn, xs, added);
    EraseContents(st.heap, st.segments, LevelSet(st), st.last, xs, plain);
    EraseCovered(st.heap, st.segments, LevelSet(st), st.last, xs);
    assert EraseEverywhere(st, xs).heap == Marked(st.heap, st.segments, st.last, xs);
    assert LevelSet(EraseEverywhere(st, xs)) == LevelSet(st);
    var a := st.heap[st.last].live;
    SubsetCount((a - xs).Keys, a.Keys);
    assert |(a - xs).Keys| == |a - xs|;
  }

  // ------------------------------------------------------------ callback arguments

  /** The objects collected for the next callback sit in the levels, one level above the current pass,
      and the names collected as erased are no longer in use there. */
  ghost predicate Collected(c: Config) {
    && (c.phase.Filling? ==> c.cur.erased == [] && forall h :: h in c.cur.inserted ==> h in LevelSet(c.st))
    && (c.phase.Passing? ==> forall h :: h in c.cur.inserted ==>
          c.phase.level + 1 < |c.st.levels| && h in SlotBag(c.st.levels[c.phase.level + 1]))
    && (c.phase.Passing? ==> |c.cur.erased| == 2 * |c.cur.inserted|)
    && Unused(c.st, c.cur.erased)
    && (forall x :: x in c.cur.erased ==> x < c.st.drawn)
  }

  ghost function NamesIn(heap: seq<Seg>, hs: set<nat>): set<SegId> {
    set h | h in hs && h < |heap| :: heap[h].id
  }

  ghost function LevelNames(st: State): set<SegId> {
    NamesIn(st.heap, LevelSet(st))
  }

  ghost function CurNames(c: Config): set<SegId> {
    NamesIn(c.st.heap, Elems(c.cur.inserted))
  }

  lemma {:induction false} OpenedNames(heap: seq<Seg>, hs: set<nat>, last: nat, drawn: nat)
    requires last < |heap| && forall h :: h in hs ==> h < |heap|
    ensures NamesIn(Opened(heap, drawn), hs + {last}) == NamesIn(heap, hs) + {heap[last].id}
  {
  }

  lemma {:induction false} AbsorbedNames(heap: seq<Seg>, hs: set<nat>, l: nat, r: nat, drawn: nat)
    requires l < |heap| && r < |heap| && l in hs && r in hs && l != r && Names(heap, drawn)
    ensures NamesIn(Absorbed(heap, l, r, drawn), hs - {r}) == NamesIn(heap, hs) - {heap[l].id, heap[r].id} + {drawn}
  {
    var heap' := Absorbed(heap, l, r, drawn);
    assert forall h :: 0 <= h < |heap| && h != l ==> heap'[h].id == heap[h].id;
    assert l in hs - {r} && heap'[l].id == drawn;
    forall x | x in NamesIn(heap, hs) - {heap[l].id, heap[r].id} ensures x in NamesIn(heap', hs - {r}) {
      var h :| h in hs && h < |heap| && heap[h].id == x;
      assert h in hs - {r} && heap'[h].id == x;
    }
  }

  lemma {:induction false} AbsorbedOthers(heap: seq<Seg>, hs: set<nat>, l: nat, r: nat, drawn: nat)
    requires l < |heap| && r < |heap| && l !in hs && r !in hs && Names(heap, drawn)
    ensures NamesIn(Absorbed(heap, l, r, drawn), hs + {l}) == NamesIn(heap, hs) + {drawn}
    ensures NamesIn(heap, hs) !! {heap[l].id, heap[r].id}
  {
    var heap' := Absorbed(heap, l, r, drawn);
    assert forall h :: 0 <= h < |heap| && h != l ==> heap'[h].id == heap[h].id;
    assert l in hs + {l} && heap'[l].id == drawn;
    forall x | x in NamesIn(heap, hs) ensures x in NamesIn(heap', hs + {l}) {
      var h :| h in hs && h < |heap| && heap[h].id == x;
      assert h in hs + {l} && heap'[h].id == x;
    }
  }

  /** The callbacks so far, and the one being collected, tell a subscriber exactly the names in the levels. */
  ghost predicate Mirrored(c: Config) {
    && c.mirror - NameSet(c.cur.erased) + CurNames(c) == LevelNames(c.st)
    && (forall x :: x in c.mirror ==> x < c.st.drawn)
  }

  lemma {:induction false} InsertedInLevels(c: Config)
    requires Collected(c)
    ensures forall h :: h in c.cur.inserted ==> h in LevelSet(c.st)
  {
    forall h | h in c.cur.inserted ensures h in LevelSet(c.st) {
      if c.phase.Passing? {
        BagUpdate(c.st.levels, c.phase.level + 1, []);
      }
    }
  }

  lemma {:induction false} PutDocMirror(c: Config, d: Doc)
    requires Shape(c) && Collected(c) && Mirrored(c) && c.phase.Filling?
    ensures Collected(c.(st := PutDoc(c.st, d))) && Mirrored(c.(st := PutDoc(c.st, d)))
  {
    var c' := c.(st := PutDoc(c.st, d));
    assert forall h :: 0 <= h < |c.st.heap| ==> c'.st.heap[h].id == c.st.heap[h].id;
    assert LevelSet(c'.st) == LevelSet(c.st);
    assert LevelNames(c'.st) == LevelNames(c.st);
    assert CurNames(c') == CurNames(c);
  }

  ghost function SealStep(c: Config): Config
    requires c.st.last < |c.st.heap|
  {
    c.(st := SealLast(c.st), cur := c.cur.(inserted := c.cur.inserted + [c.st.last]))
  }

  lemma {:induction false} SealCollected(c: Config)
    requires Shape(c) && Listed(c.st) && Collected(c) && c.phase.Filling?
    ensures Collected(SealStep(c))
  {
    SealBag(c.st);
  }

  lemma {:induction false} SealMirrored(c: Config)
    requires Shape(c) && Listed(c.st) && Collected(c) && Mirrored(c) && c.phase.Filling?
    ensures Mirrored(SealStep(c))
  {
    var st, c' := c.st, SealStep(c);
    SealBag(st);
    OpenedNames(st.heap, LevelSet(st), st.last, st.drawn);
    OpenedNames(st.heap, Elems(c.cur.inserted), st.last, st.drawn);
    assert Elems(c'.cur.inserted) == Elems(c.cur.inserted) + {st.last};
  }

  lemma {:induction false} SealMirror(c: Config)
    requires Shape(c) && Listed(c.st) && Collected(c) && Mirrored(c) && c.phase.Filling?
    ensures Collected(SealStep(c)) && Mirrored(SealStep(c))
  {
    SealCollected(c);
    SealMirrored(c);
  }

  lemma {:induction false} PairUnused(st: State, erased: seq<SegId>, i: nat, j: nat)
    requires HandlesOk(st) && Listed(st) && Names(st.heap, st.drawn) && PairAt(st, i, j) && Unused(st, erased)
    requires forall x :: x in erased ==> x < st.drawn
    ensures Unused(MergePair(st, i, j), erased + [st.heap[st.levels[i][j + 1].value].id,
      st.heap[st.levels[i][j].value].id])
  {
    PairListed(st, i, j);
  }

  lemma {:induction false} PairCollected(c: Config, j: nat)
    requires Shape(c) && Listed(c.st) && Names(c.st.heap, c.st.drawn) && Collected(c)
    requires c.phase.Passing? && PairAt(c.st, c.phase.level, j)
    ensures Collected(PairStep(c, j))
  {
    PairUnused(c.st, c.cur.erased, c.phase.level, j);
    InsertedPromoted(c.st.levels, c.phase.level, j, c.cur.inserted);
  }

  /** The left part of a promoted pair joins what was inserted one level up before. */
  lemma {:induction false} InsertedPromoted(levels: LevelTable, i: nat, j: nat, inserted: seq<nat>)
    requires i < |levels| && j + 1 < |levels[i]| && levels[i][j].Some?
    requires forall h :: h in inserted ==> i + 1 < |levels| && h in SlotBag(levels[i + 1])
    ensures i + 1 < |Promote(levels, i, j)|
    ensures forall h :: h in inserted + [levels[i][j].value] ==> h in SlotBag(Promote(levels, i, j)[i + 1])
  {
    var grown := if i + 1 == |levels| then levels + [[]] else levels;
    SlotPush(grown[i + 1], levels[i][j].value);
    assert Promote(levels, i, j)[i + 1] == grown[i + 1] + [levels[i][j]];
  }

  /** An object in level i with one slot in all is not in level i + 1. */
  lemma {:induction false} TwoLevels(levels: LevelTable, i: nat, j: nat)
    requires i + 1 < |levels| && j < |levels[i]| && levels[i][j].Some?
    requires forall h :: h in Bag(levels) ==> Bag(levels)[h] == 1
    ensures levels[i][j].value !in SlotBag(levels[i + 1])
  {
    var h := levels[i][j].value;
    InBag(levels, i, j);
    BagUpdate(levels, i, []);
    BagUpdate(levels[i := []], i + 1, []);
    assert SlotBag(levels[i + 1])[h] <= Bag(levels[i := []])[h];
  }

  /** Neither part of a pair was collected in the same pass: products sit one level up. */
  lemma {:induction false} PairIsNew(c: Config, j: nat)
    requires Listed(c.st) && Collected(c) && c.phase.Passing? && PairAt(c.st, c.phase.level, j)
    ensures c.st.levels[c.phase.level][j].value !in c.cur.inserted
    ensures c.st.levels[c.phase.level][j + 1].value !in c.cur.inserted
  {
    var levels, i := c.st.levels, c.phase.level;
    if i + 1 < |levels| {
      TwoLevels(levels, i, j);
      TwoLevels(levels, i, j + 1);
    }
  }

  lemma {:induction false} PairMirror(c: Config, j: nat)
    requires Shape(c) && Listed(c.st) && Names(c.st.heap, c.st.drawn) && Collected(c) && Mirrored(c)
    requires c.phase.Passing? && PairAt(c.st, c.phase.level, j)
    ensures Mirrored(PairStep(c, j))
  {
    var gone := GivenUp(c.st, c.phase.level, j);
    PairLevelNames(c.st, c.phase.level, j);
    PairCurNames(c, j);
    PairErasedNames(c.st, c.cur, c.phase.level, j);
    Renamed(c.mirror, NameSet(c.cur.erased), CurNames(c), LevelNames(c.st), gone, c.st.drawn);
  }

  /** The two names a merged pair gives up. */
  ghost function GivenUp(st: State, i: nat, j: nat): set<SegId>
    requires PairAt(st, i, j)
  {
    {st.heap[st.levels[i][j].value].id, st.heap[st.levels[i][j + 1].value].id}
  }

  lemma {:induction false} PairLevelNames(st: State, i: nat, j: nat)
    requires HandlesOk(st) && Listed(st) && Names(st.heap, st.drawn) && PairAt(st, i, j)
    ensures LevelNames(MergePair(st, i, j)) == LevelNames(st) - GivenUp(st, i, j) + {st.drawn}
  {
    PairListed(st, i, j);
    AbsorbedNames(st.heap, LevelSet(st), st.levels[i][j].value, st.levels[i][j + 1].value, st.drawn);
  }

  lemma {:induction false} PairCurNames(c: Config, j: nat)
    requires Listed(c.st) && Names(c.st.heap, c.st.drawn) && Collected(c)
    requires c.phase.Passing? && PairAt(c.st, c.phase.level, j)
    ensures CurNames(PairStep(c, j)) == CurNames(c) + {c.st.drawn}
    ensures CurNames(c) !! GivenUp(c.st, c.phase.level, j)
  {
    var i := c.phase.level;
    var l, r := c.st.levels[i][j].value, c.st.levels[i][j + 1].value;
    PairIsNew(c, j);
    AbsorbedOthers(c.st.heap, Elems(c.cur.inserted), l, r, c.st.drawn);
    assert Elems(PairStep(c, j).cur.inserted) == Elems(c.cur.inserted) + {l};
  }

  lemma {:induction false} PairErasedNames(st: State, cur: Task, i: nat, j: nat)
    requires PairAt(st, i, j)
    ensures NameSet(PairTask(st, cur, i, j).erased) == NameSet(cur.erased) + GivenUp(st, i, j)
  {
  }

  /** Two names leave and a new one comes, on both sides of the mirror equation. */
  lemma {:induction false} Renamed(mirror: set<SegId>, erased: set<SegId>, cur: set<SegId>, names: set<SegId>,
      gone: set<SegId>, drawn: SegId)
    requires mirror - erased + cur == names && cur !! gone
    ensures mirror - (erased + gone) + (cur + {drawn}) == names - gone + {drawn}
  {
  }

  lemma {:induction false} EmitMirror(c: Config)
    requires Shape(c) && Listed(c.st) && Names(c.st.heap, c.st.drawn) && Collected(c) && Mirrored(c)
    ensures Mirrored(Emit(c)) && Emit(c).mirror == LevelNames(c.st)
  {
    var c' := Emit(c);
    assert NamesOf(c.st.heap, c.cur.inserted) == CurNames(c);
    assert CurNames(c') == {};
    assert c'.mirror == LevelNames(c.st);
  }

  lemma {:induction false} SyncMirror(c: Config)
    requires Shape(c) && Collected(c) && Mirrored(c)
    ensures Shape(c.(st := SyncSegments(c.st, c.cur)))
    ensures Collected(c.(st := SyncSegments(c.st, c.cur))) && Mirrored(c.(st := SyncSegments(c.st, c.cur)))
  {
    var c' := c.(st := SyncSegments(c.st, c.cur));
    assert LevelSet(c'.st) == LevelSet(c.st);
  }

  lemma {:induction false} EraseMirror(c: Config, xs: set<DocId>)
    requires Shape(c) && c.phase.Filling? && c.cur == NO_TASK && Mirrored(c)
    ensures Shape(Erase(c, xs)) && Collected(Erase(c, xs)) && Mirrored(Erase(c, xs))
  {
    var st, st' := c.st, EraseEverywhere(c.st, xs);
    assert LevelSet(st') == LevelSet(st);
    assert forall h :: 0 <= h < |st.heap| ==> st'.heap[h].id == st.heap[h].id;
    assert LevelNames(st') == LevelNames(st);
    assert CurNames(Erase(c, xs)) == CurNames(c);
  }

  lemma {:induction false} FlushPassMirror(c: Config)
    requires Shape(c) && Listed(c.st) && Names(c.st.heap, c.st.drawn) && Collected(c) && Mirrored(c) && c.phase.Passing?
    requires Listed(SyncSegments(c.st, c.cur))
    ensures Shape(FlushPass(c)) && Collected(FlushPass(c)) && Mirrored(FlushPass(c))
    ensures FlushPass(c).st == SyncSegments(c.st, c.cur) && FlushPass(c).cur == NO_TASK
  {
    SyncMirror(c);
    var synced := c.(st := SyncSegments(c.st, c.cur), phase := Passing(c.phase.level + 1));
    var emitted := Emit(synced);
    EmitMirror(c.(st := SyncSegments(c.st, c.cur)));
    var c' := FlushPass(c);
    assert CurNames(c') == {};
  }
}
