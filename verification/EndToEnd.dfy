/** From a write to an answer: what a client of a searcher sees of the writer's documents. */
module EndToEnd {
  import opened Prelude
  import opened IndexModel
  import opened IndexInvariant
  import opened IndexRuns
  import opened Replication
  import opened ReplicationTheorems
  import opened StaleDocuments
  import opened IndexHistory
  import opened WriterAlone
  import opened IndexObject
  import Search

  /** A searcher in sync with the writer reads exactly the writer's live sealed documents. */
  lemma {:induction false} InSyncCovers(s: State, w: World)
    requires ListOk(s) && w.c.st.last < |w.c.st.heap| && InSync(s, w)
    ensures Search.Covers(Lives(s), SealedLive(w))
  {
    var lives, docs := Lives(s), SealedLive(w);
    forall i | 0 <= i < |lives| ensures SubMap(lives[i], docs) {
      var h := if i < |s.segments| then s.segments[i] else s.last;
      forall x | x in lives[i] ensures x in docs && docs[x] == lives[i][x] {
        assert Reads(s, h) && Holds(s.heap, h, x);
        assert Serves(s, x, lives[i][x]);
      }
    }
    forall x | x in docs ensures Search.HeldBySome(lives, x) {
      assert Serves(s, x, docs[x]);
      var h: nat :| Reads(s, h) && Holds(s.heap, h, x);
      if h == s.last {
        assert x in lives[|s.segments|];
      } else {
        var i :| 0 <= i < |s.segments| && s.segments[i] == h;
        assert x in lives[i];
      }
    }
  }

  /** Searching at a searcher in sync is brute force over the live documents the writer has sealed, although the
      searcher keeps every superseded segment it ever fetched. */
  method SearchReplica(index: Index, dist: Vector -> real, k: nat, answers: seq<seq<int>>,
                       ghost s: State, ghost w: World)
    returns (ids: seq<DocId>)
    requires ListOk(s) && w.c.st.last < |w.c.st.heap| && InSync(s, w)
    requires index.Models(s, []) && index.Answered(dist, k, answers)
    ensures Search.KNearest(ids, SealedLive(w), dist, k)
  {
    InSyncCovers(s, w);
    ghost var found;
    ids, found := index.SearchOver(dist, k, answers, SealedLive(w), s, []);
  }

  /** After every interleaving that ended with the queue empty and whose erases all reached their documents, a search
      at a searcher is brute force over the live documents the writer has sealed. */
  method SearchAfterRun(index: Index, dist: Vector -> real, k: nat, answers: seq<seq<int>>,
                        ghost n: nat, ghost t: nat, ghost merging: bool, ghost es: seq<Event>,
                        ghost i: nat, ghost r: Rep)
    returns (ids: seq<DocId>)
    requires t >= 1 && LegalEvents(map[], es) && r == HappenAll(Fresh(n), t, merging, es)
    requires Drained(r) && i < n == |r.searchers| && ErasesReach(Fresh(n), t, merging, es, i)
    requires index.Models(r.searchers[i], []) && index.Answered(dist, k, answers)
    ensures Search.KNearest(ids, SealedLive(r.w), dist, k)
  {
    InSyncIffErasesReach(n, t, merging, es, i);
    ListsOk(n, t, merging, es, i, r);
    ids := SearchReplica(index, dist, k, answers, r.searchers[i], r.w);
  }

  lemma {:induction false} ListsOk(n: nat, t: nat, merging: bool, es: seq<Event>, i: nat, r: Rep)
    requires t >= 1 && LegalEvents(map[], es) && r == HappenAll(Fresh(n), t, merging, es) && i < |r.searchers|
    ensures ListOk(r.searchers[i]) && Shape(r.w.c)
  {
    FreshInv(n, t);
    EventsKeep(Fresh(n), t, merging, es);
  }

  /** An index object that made the calls of an interleaving holds the state and stands for the documents of the writer
      there, and what is queued there is the end of what it reported. */
  lemma {:induction false} ObjectIsTheWriter(index: Index, n: nat, es: seq<Event>)
    requires index.Valid() && index.world == WorldAfter(index.threshold, index.merging, Calls(es))
    ensures
      var w := HappenAll(Fresh(n), index.threshold, index.merging, es).w;
      && index.Models(w.c.st, index.world.c.outbox) && index.world.plain == w.plain
      && exists k :: 0 <= k <= |index.world.c.outbox| && w.c.outbox == index.world.c.outbox[k..]
  {
    WriterIgnoresTasks(n, index.threshold, index.merging, es);
  }
}
