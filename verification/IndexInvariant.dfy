/** The invariant of the segmented index, clause by clause, and how each change of the structure keeps it.
    Clauses speak of the heap of segment objects, the set `lv` of objects in the levels, the flat list and
    the open segment. */
module IndexInvariant {
  import opened Prelude
  import opened IndexModel

  // -------------------------------------------------------------------- clauses

  /** No two objects share a name, and `rand()` has drawn every name in use. */
  ghost predicate Names(heap: seq<Seg>, drawn: nat) {
    && (forall h :: 0 <= h < |heap| ==> heap[h].id < drawn)
    && (forall h, g :: 0 <= h < g < |heap| ==> heap[h].id != heap[g].id)
  }

  ghost predicate Owned(heap: seq<Seg>, added: Docs) {
    forall h :: 0 <= h < |heap| ==>
      heap[h].live.Keys <= heap[h].known <= added.Keys && SubMap(heap[h].live, added)
  }

  /** The objects in the levels have pairwise disjoint documents. */
  ghost predicate Apart(heap: seq<Seg>, lv: set<nat>) {
    forall h, g :: h in lv && g in lv && h != g && h < |heap| && g < |heap| ==> heap[h].known !! heap[g].known
  }

  /** The open segment shares no document with any other object. */
  ghost predicate LastApart(heap: seq<Seg>, last: nat) {
    last < |heap| && forall h :: 0 <= h < |heap| && h != last ==> heap[h].known !! heap[last].known
  }

  /** Everything a search reads is in the plain map. */
  ghost predicate Faithful(heap: seq<Seg>, segments: seq<nat>, last: nat, plain: Docs) {
    forall h :: 0 <= h < |heap| && (h in segments || h == last) ==> SubMap(heap[h].live, plain)
  }

  ghost predicate Holds(heap: seq<Seg>, h: nat, x: DocId) {
    h < |heap| && x in heap[h].live
  }

  /** Everything in the plain map is live in the open segment or in a segment of the levels. */
  ghost predicate Complete(heap: seq<Seg>, lv: set<nat>, last: nat, plain: Docs) {
    forall x :: x in plain ==> Holds(heap, last, x) || exists h :: h in lv && Holds(heap, h, x)
  }

  ghost predicate CoveredBy(heap: seq<Seg>, h: nat, l: nat) {
    h < |heap| && l < |heap| && heap[h].live.Keys <= heap[l].live.Keys
  }

  ghost predicate HasCover(heap: seq<Seg>, lv: set<nat>, h: nat) {
    exists l :: l in lv && CoveredBy(heap, h, l)
  }

  /** An entry of the list serves nothing that one segment of the levels does not serve. */
  ghost predicate Covered(heap: seq<Seg>, segments: seq<nat>, lv: set<nat>) {
    forall h {:trigger HasCover(heap, lv, h)} :: h in segments ==> HasCover(heap, lv, h)
  }

  // ---------------------------------------------------- a document goes in

  ghost function DocIn(heap: seq<Seg>, last: nat, d: Doc): seq<Seg>
    requires last < |heap|
  {
    heap[last := AddDoc(heap[last], d)]
  }

  lemma {:induction false} DocOwned(heap: seq<Seg>, last: nat, added: Docs, d: Doc)
    requires last < |heap| && Owned(heap, added) && d.id !in added
    ensures Owned(DocIn(heap, last, d), added[d.id := d.vec])
    ensures AddDoc(heap[last], d).Size() == heap[last].Size() + 1
  {
    var s := heap[last];
    assert d.id !in s.live;
    assert s.live[d.id := d.vec].Keys == s.live.Keys + {d.id};
    assert |s.live[d.id := d.vec].Keys| == |s.live[d.id := d.vec]|;
  }

  lemma {:induction false} DocApart(heap: seq<Seg>, lv: set<nat>, last: nat, added: Docs, d: Doc)
    requires last < |heap| && Owned(heap, added) && d.id !in added
    requires Apart(heap, lv) && LastApart(heap, last) && last !in lv
    ensures Apart(DocIn(heap, last, d), lv) && LastApart(DocIn(heap, last, d), last)
  {
    assert forall h :: 0 <= h < |heap| ==> d.id !in heap[h].known;
  }

  lemma {:induction false} DocContents(heap: seq<Seg>, segments: seq<nat>, lv: set<nat>, last: nat, plain: Docs, d: Doc)
    requires last < |heap| && last !in segments && d.id !in plain
    requires Faithful(heap, segments, last, plain) && Complete(heap, lv, last, plain) && Covered(heap, segments, lv)
    ensures Faithful(DocIn(heap, last, d), segments, last, plain[d.id := d.vec])
    ensures Complete(DocIn(heap, last, d), lv, last, plain[d.id := d.vec])
    ensures Covered(DocIn(heap, last, d), segments, lv)
  {
    var heap' := DocIn(heap, last, d);
    assert forall h: nat, x :: Holds(heap, h, x) ==> Holds(heap', h, x);
    assert Holds(heap', last, d.id);
    forall h | h in segments ensures HasCover(heap', lv, h) {
      assert HasCover(heap, lv, h);
      var l :| l in lv && CoveredBy(heap, h, l);
      assert heap[l].live.Keys <= heap'[l].live.Keys;
      assert CoveredBy(heap', h, l);
    }
  }

  // ---------------------------------------------- the open segment is sealed

  ghost function Opened(heap: seq<Seg>, drawn: nat): seq<Seg> {
    heap + [Seg(drawn, {}, map[])]
  }

  lemma {:induction false} SealNames(heap: seq<Seg>, drawn: nat)
    requires Names(heap, drawn)
    ensures Names(Opened(heap, drawn), drawn + 1)
  {
  }

  lemma {:induction false} SealApart(heap: seq<Seg>, lv: set<nat>, last: nat, drawn: nat, added: Docs)
    requires last < |heap| && Owned(heap, added) && (forall h :: h in lv ==> h < |heap|)
    requires Apart(heap, lv) && LastApart(heap, last) && last !in lv
    ensures Owned(Opened(heap, drawn), added)
    ensures Apart(Opened(heap, drawn), lv + {last}) && LastApart(Opened(heap, drawn), |heap|)
  {
  }

  lemma {:induction false} SealContents(heap: seq<Seg>, segments: seq<nat>, lv: set<nat>, last: nat, drawn: nat,
      plain: Docs)
    requires last < |heap| && (forall h :: h in segments ==> h < |heap|)
    requires Faithful(heap, segments, last, plain) && Complete(heap, lv, last, plain) && Covered(heap, segments, lv)
    ensures Faithful(Opened(heap, drawn), segments + [last], |heap|, plain)
    ensures Complete(Opened(heap, drawn), lv + {last}, |heap|, plain)
    ensures Covered(Opened(heap, drawn), segments + [last], lv + {last})
  {
    var heap' := Opened(heap, drawn);
    assert forall h: nat, x :: Holds(heap, h, x) ==> Holds(heap', h, x);
    assert CoveredBy(heap', last, last);
    assert last in lv + {last};
    forall x | x in plain ensures exists h :: h in lv + {last} && Holds(heap', h, x) {
      if Holds(heap, last, x) {
        assert Holds(heap', last, x);
      } else {
        var h :| h in lv && Holds(heap, h, x);
        assert h in lv + {last} && Holds(heap', h, x);
      }
    }
    forall h | h in segments + [last] ensures HasCover(heap', lv + {last}, h) {
      if h in segments {
        assert HasCover(heap, lv, h);
        var l :| l in lv && CoveredBy(heap, h, l);
        assert l in lv + {last} && CoveredBy(heap', h, l);
      }
    }
  }

  // -------------------------------------------------- a segment absorbs another

  ghost function Absorbed(heap: seq<Seg>, l: nat, r: nat, drawn: nat): seq<Seg>
    requires l < |heap| && r < |heap|
  {
    heap[l := Absorb(heap[l], heap[r], drawn)]
  }

  lemma {:induction false} PairNames(heap: seq<Seg>, l: nat, r: nat, drawn: nat, added: Docs)
    requires l < |heap| && r < |heap| && Names(heap, drawn) && Owned(heap, added)
    ensures Names(Absorbed(heap, l, r, drawn), drawn + 1) && Owned(Absorbed(heap, l, r, drawn), added)
  {
  }

  lemma {:induction false} PairApart(heap: seq<Seg>, lv: set<nat>, l: nat, r: nat, last: nat, drawn: nat, added: Docs)
    requires l < |heap| && r < |heap| && l in lv && r in lv && l != r && last !in lv && Owned(heap, added)
    requires Apart(heap, lv) && LastApart(heap, last)
    ensures Apart(Absorbed(heap, l, r, drawn), lv - {r}) && LastApart(Absorbed(heap, l, r, drawn), last)
  {
    var heap' := Absorbed(heap, l, r, drawn);
    assert heap'[l].known <= heap[l].known + heap[r].known;
  }

  lemma {:induction false} PairContents(heap: seq<Seg>, segments: seq<nat>, lv: set<nat>, l: nat, r: nat, last: nat,
      drawn: nat, plain: Docs)
    requires l < |heap| && r < |heap| && l in lv && r in lv && l != r && l in segments && r in segments
    requires Faithful(heap, segments, last, plain) && Complete(heap, lv, last, plain) && l != last
    ensures Faithful(Absorbed(heap, l, r, drawn), segments, last, plain)
    ensures Complete(Absorbed(heap, l, r, drawn), lv - {r}, last, plain)
  {
    var heap' := Absorbed(heap, l, r, drawn);
    assert heap'[l].live == heap[l].live + heap[r].live;
    assert l in lv - {r};
    forall x | x in plain ensures Holds(heap', last, x) || exists h :: h in lv - {r} && Holds(heap', h, x) {
      if Holds(heap, last, x) {
        assert Holds(heap', last, x);
      } else {
        var h :| h in lv && Holds(heap, h, x);
        if h == r || h == l {
          assert Holds(heap', l, x);
        } else {
          assert h in lv - {r} && Holds(heap', h, x);
        }
      }
    }
  }

  lemma {:induction false} PairCovered(heap: seq<Seg>, segments: seq<nat>, lv: set<nat>, l: nat, r: nat, drawn: nat)
    requires l < |heap| && r < |heap| && l in lv && r in lv && l != r
    requires Covered(heap, segments, lv)
    ensures Covered(Absorbed(heap, l, r, drawn), segments, lv - {r})
  {
    var heap' := Absorbed(heap, l, r, drawn);
    var both := heap[l].live + heap[r].live;
    assert both.Keys == heap[l].live.Keys + heap[r].live.Keys;
    assert l in lv - {r};
    forall h | h in segments ensures HasCover(heap', lv - {r}, h) {
      assert HasCover(heap, lv, h);
      var g :| g in lv && CoveredBy(heap, h, g);
      if h == l || g == l || g == r {
        assert CoveredBy(heap', h, l);
      } else {
        assert g in lv - {r} && CoveredBy(heap', h, g);
      }
    }
  }

  // -------------------------------------------------------------- an erase

  ghost function Marked(heap: seq<Seg>, segments: seq<nat>, last: nat, xs: set<DocId>): (r: seq<Seg>)
    ensures |r| == |heap|
  {
    seq(|heap|, h requires 0 <= h < |heap| => if h in segments || h == last then EraseDocs(heap[h], xs) else heap[h])
  }

  lemma {:induction false} EraseClauses(heap: seq<Seg>, segments: seq<nat>, lv: set<nat>, last: nat, drawn: nat,
      xs: set<DocId>, added: Docs)
    requires Names(heap, drawn) && Owned(heap, added) && Apart(heap, lv) && LastApart(heap, last)
    ensures Names(Marked(heap, segments, last, xs), drawn) && Owned(Marked(heap, segments, last, xs), added)
    ensures Apart(Marked(heap, segments, last, xs), lv) && LastApart(Marked(heap, segments, last, xs), last)
  {
    var heap' := Marked(heap, segments, last, xs);
    assert forall h :: 0 <= h < |heap| ==> heap'[h].known == heap[h].known && heap'[h].id == heap[h].id;
    assert forall h :: 0 <= h < |heap| ==> heap'[h].live.Keys <= heap[h].live.Keys;
  }

  lemma {:induction false} EraseContents(heap: seq<Seg>, segments: seq<nat>, lv: set<nat>, last: nat, xs: set<DocId>,
      plain: Docs)
    requires Faithful(heap, segments, last, plain) && Complete(heap, lv, last, plain)
    ensures Faithful(Marked(heap, segments, last, xs), segments, last, plain - xs)
    ensures Complete(Marked(heap, segments, last, xs), lv, last, plain - xs)
  {
    var heap' := Marked(heap, segments, last, xs);
    assert forall h: nat, x :: Holds(heap, h, x) && x !in xs ==> Holds(heap', h, x);
  }

  lemma {:induction false} EraseCoveredBy(heap: seq<Seg>, segments: seq<nat>, last: nat, xs: set<DocId>, h: nat, l: nat)
    requires h in segments && l in segments && CoveredBy(heap, h, l)
    ensures CoveredBy(Marked(heap, segments, last, xs), h, l)
  {
    var heap' := Marked(heap, segments, last, xs);
    assert heap'[h].live == heap[h].live - xs;
    assert heap'[l].live == heap[l].live - xs;
  }

  lemma {:induction false} EraseCovered(heap: seq<Seg>, segments: seq<nat>, lv: set<nat>, last: nat, xs: set<DocId>)
    requires forall h :: h in lv ==> h in segments
    requires Covered(heap, segments, lv)
    ensures Covered(Marked(heap, segments, last, xs), segments, lv)
  {
    var heap' := Marked(heap, segments, last, xs);
    forall h | h in segments ensures HasCover(heap', lv, h) {
      assert HasCover(heap, lv, h);
      var l :| l in lv && CoveredBy(heap, h, l);
      EraseCoveredBy(heap, segments, last, xs, h, l);
    }
  }
}
