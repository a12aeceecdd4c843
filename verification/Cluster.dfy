/** One shard with its searchers, as objects: the writer's index, the object store as bytes, and the searchers' indexes.
    Whatever is called, the objects stand for the replication model after the same events. */
module Cluster {
  import opened Prelude
  import opened Codec
  import opened SegmentFile
  import opened IndexModel
  import opened IndexRuns
  import opened IndexHistory
  import opened TaskQueue
  import opened Replication
  import opened ReplicationRuns
  import opened ReplicationTheorems
  import opened WriterAlone
  import opened StaleDocuments
  import opened IndexObject
  import opened Segments
  import opened Tasks
  import EndToEnd
  import Search

  // ---------------------------------------------------------------------------- events

  ghost function Reach(n: nat, t: nat, merging: bool, es: seq<Event>): (r: Rep)
    ensures Shape(r.w.c)
  {
    HappenAll(Fresh(n), t, merging, es)
  }

  lemma {:induction false} ReachStart(n: nat, t: nat, merging: bool)
    ensures LegalEvents(map[], [])
    ensures
      var r := Reach(n, t, merging, []);
      TrailsBy(r, EMPTY_WORLD, 0) && r.store == map[] && r.searchers == Blank(n)
  {
  }

  lemma {:induction false} ReachMore(n: nat, t: nat, merging: bool, es: seq<Event>, e: Event)
    ensures Reach(n, t, merging, es + [e]) == Happens(Reach(n, t, merging, es), t, merging, e)
  {
    HappenOneAfterAnother(Fresh(n), t, merging, es, [e]);
    assert [e][1..] == [];
    var r := Reach(n, t, merging, es);
    assert HappenAll(r, t, merging, [e]) == HappenAll(Happens(r, t, merging, e), t, merging, []);
  }

  lemma {:induction false} LegalMore(r: Rep, t: nat, merging: bool, es: seq<Event>, e: Event)
    requires Shape(r.w.c) && LegalEvents(r.w.added, es)
    requires e.Call? && e.op.AddOp? ==> AllNew(HappenAll(r, t, merging, es).w.added, e.op.docs)
    ensures LegalEvents(r.w.added, es + [e])
    decreases |es|
  {
    if es == [] {
      assert es + [e] == [e] && [e][1..] == [];
    } else {
      assert (es + [e])[0] == es[0] && (es + [e])[1..] == es[1..] + [e];
      LegalMore(Happens(r, t, merging, es[0]), t, merging, es[1..], e);
    }
  }

  lemma {:induction false} ReachInv(n: nat, t: nat, merging: bool, es: seq<Event>)
    requires t >= 1 && LegalEvents(map[], es)
    ensures RepInv(Reach(n, t, merging, es), t) && Idle(Reach(n, t, merging, es).w.c)
  {
    FreshInv(n, t);
    EventsKeep(Fresh(n), t, merging, es);
  }

  // ------------------------------------------------------------------------- searchers

  ghost function Parts(searchers: seq<Searcher>): set<object>
    reads set s | s in searchers :: s.index
  {
    set s, o | s in searchers && o in s.index.repr :: o
  }

  ghost predicate OwnIndexes(searchers: seq<Searcher>) {
    forall i, j :: 0 <= i < j < |searchers| ==> searchers[i].index != searchers[j].index
  }

  ghost predicate Stands(s: Searcher, st: State)
    reads s.index, s.index.repr
  {
    Owns(s.index.repr, s.index.objs) && s.index.Models(st, []) && HandlesOk(st)
  }

  /** The searchers' indexes hold exactly these states. */
  ghost predicate Serving(searchers: seq<Searcher>, states: seq<State>)
    reads set s | s in searchers :: s.index
    reads Parts(searchers)
  {
    && |searchers| == |states|
    && forall i :: 0 <= i < |states| ==> searchers[i] in searchers && Stands(searchers[i], states[i])
  }

  /** The writer's objects are none of the searchers'. */
  ghost predicate Clear(repr: set<object>, searchers: seq<Searcher>)
    reads set s | s in searchers :: s.index
  {
    forall i :: 0 <= i < |searchers| ==>
      searchers[i] in searchers && searchers[i].index !in repr && searchers[i].index.repr !! repr
  }

  lemma {:induction false} ClearTogether(a: set<object>, b: set<object>, searchers: seq<Searcher>)
    ensures Clear(a + b, searchers) <==> Clear(a, searchers) && Clear(b, searchers)
  {
  }

  /** A call at the writer leaves the searchers alone. */
  method AddBeside(writer: Index, docs: seq<Doc>, ghost searchers: seq<Searcher>, ghost states: seq<State>,
      ghost others: set<object>)
    requires writer.Valid() && AllNew(writer.world.added, docs)
    requires Serving(searchers, states) && Clear(writer.repr, searchers) && Clear(others, searchers)
    modifies writer.repr
    ensures Shape(old(writer.world).c) && writer.Valid()
    ensures writer.world == AddTo(old(writer.world), writer.threshold, writer.merging, docs)
    ensures Serving(searchers, states) && Clear(writer.repr, searchers) && fresh(writer.repr - old(writer.repr))
    ensures Clear(others, searchers)
  {
    writer.Add(docs);
    forall i | 0 <= i < |searchers| ensures Stands(searchers[i], states[i]) {
    }
  }

  /** One host is told. */
  method NotifyOne(searchers: seq<Searcher>, i: nat, base: BaseFormat, added: seq<SegId>, deleted: seq<SegId>,
      objects: Objects, ghost vals: Store, ghost states: seq<State>, ghost states': seq<State>,
      ghost others: set<object>)
    requires Consumes(base) && Kept(base, objects, vals)
    requires i < |states| && states' == states[i := FetchAll(states[i], vals, added)]
    requires i < |searchers| && OwnIndexes(searchers) && Serving(searchers, states) && Clear(others, searchers)
    modifies searchers[i].index
    ensures Serving(searchers, states')
    ensures Clear(others, searchers)
  {
    searchers[i].ProcessUpdateRequest(base, added, deleted, objects, vals, states[i], []);
  }

  /** What the searchers hold when the first i hosts have been told. */
  ghost function Told(states: seq<State>, vals: Store, added: seq<SegId>, i: nat): seq<State>
    requires i <= |states|
  {
    seq(|states|, j requires 0 <= j < |states| => if j < i then FetchAll(states[j], vals, added) else states[j])
  }

  lemma {:induction false} ToldNone(states: seq<State>, vals: Store, added: seq<SegId>)
    ensures Told(states, vals, added, 0) == states
  {
  }

  lemma {:induction false} ToldNext(states: seq<State>, vals: Store, added: seq<SegId>, i: nat)
    requires i < |states|
    ensures
      var now := Told(states, vals, added, i);
      now[i := FetchAll(now[i], vals, added)] == Told(states, vals, added, i + 1)
  {
  }

  /** The loop over the searcher hosts. */
  method NotifyAll(searchers: seq<Searcher>, base: BaseFormat, added: seq<SegId>, deleted: seq<SegId>,
      objects: Objects, ghost vals: Store, ghost states: seq<State>, ghost others: set<object>)
    requires Consumes(base) && Kept(base, objects, vals)
    requires OwnIndexes(searchers) && Serving(searchers, states) && Clear(others, searchers)
    modifies set s | s in searchers :: s.index
    ensures Serving(searchers, Told(states, vals, added, |states|))
    ensures Clear(others, searchers)
  {
    var i := 0;
    ToldNone(states, vals, added);
    while i < |searchers|
      invariant 0 <= i <= |searchers| && Serving(searchers, Told(states, vals, added, i))
      invariant Clear(others, searchers)
    {
      ToldNext(states, vals, added, i);
      NotifyOne(searchers, i, base, added, deleted, objects, vals,
                Told(states, vals, added, i), Told(states, vals, added, i + 1), others);
      i := i + 1;
    }
  }

  ghost function Blank(n: nat): seq<State> {
    seq(n, i => START)
  }

  method MakeSearcher(threshold: nat, merging: bool) returns (s: Searcher)
    requires threshold >= 1
    ensures fresh(s) && fresh(s.index) && fresh(s.index.repr) && Stands(s, START)
  {
    var index := new Index(threshold, merging);
    s := new Searcher(index);
  }

  method MakeSearchers(n: nat, threshold: nat, merging: bool, ghost others: set<object>) returns (ss: seq<Searcher>)
    requires threshold >= 1
    ensures |ss| == n && OwnIndexes(ss) && Serving(ss, Blank(n)) && Clear(others, ss)
    ensures forall i :: 0 <= i < |ss| ==> fresh(ss[i]) && fresh(ss[i].index) && fresh(ss[i].index.repr)
  {
    ss := [];
    while |ss| < n
      invariant |ss| <= n && OwnIndexes(ss)
      invariant forall i :: 0 <= i < |ss| ==> Stands(ss[i], START)
      invariant forall i :: 0 <= i < |ss| ==> fresh(ss[i]) && fresh(ss[i].index) && fresh(ss[i].index.repr)
    {
      var s := MakeSearcher(threshold, merging);
      ss := ss + [s];
    }
  }

  method EraseBeside(writer: Index, xs: seq<DocId>, ghost searchers: seq<Searcher>, ghost states: seq<State>,
      ghost others: set<object>)
    requires writer.Valid() && Serving(searchers, states) && Clear(writer.repr, searchers) && Clear(others, searchers)
    modifies writer.repr
    ensures writer.Valid() && writer.world == EraseFrom(old(writer.world), Elems(xs)) && writer.repr == old(writer.repr)
    ensures Serving(searchers, states) && Clear(writer.repr, searchers)
    ensures Clear(others, searchers)
  {
    writer.Erase(xs);
    forall i | 0 <= i < |searchers| ensures Stands(searchers[i], states[i]) {
    }
  }

  ghost predicate AllFit(kind: SegmentType, segs: seq<Segment>)
    reads segs, set o | o in segs :: o.index
  {
    forall i :: 0 <= i < |segs| ==> segs[i] in segs && Fits(Image(kind, segs[i].index.Value(), segs[i].segId))
  }

  /** A callback of the writer names segments as they are now. */
  lemma {:induction false} NoticeGiven(writer: Index, kind: SegmentType, k: nat)
    requires writer.Valid() && k < |writer.calls| && AllFit(kind, writer.calls[k].inserted)
    ensures k < |writer.world.c.outbox| && writer.calls[k].erased == writer.world.c.outbox[k].erased
    ensures Given(writer.calls[k].inserted, writer.world.c.st.heap, writer.world.c.outbox[k].inserted, kind)
  {
    var segs, hs := writer.calls[k].inserted, writer.world.c.outbox[k].inserted;
    assert Refs(writer.objs, segs, hs);
  }

  lemma {:induction false} AllServed(writer: Index, k: nat, r: Rep)
    requires writer.Valid() && TrailsBy(r, writer.world, k) && k == |writer.calls|
    ensures r.w.c.outbox == []
  {
  }

  lemma {:induction false} ToldIsRun(r: Rep)
    requires CanRun(r)
    ensures
      var t, heap := r.w.c.outbox[0], r.w.c.st.heap;
      Told(r.searchers, StoreAfter(r.store, heap, t), NameList(heap, t.inserted), |r.searchers|) == RunTask(r).searchers
  {
  }

  /** The puts and deletes of callback k. */
  method UpdateStore(writer: Index, k: nat, base: BaseFormat, kind: SegmentType, objects: Objects, ghost r: Rep)
    returns (objects': Objects, added: seq<SegId>, deleted: seq<SegId>)
    requires Restoring(base) && Kept(base, objects, r.store) && CanRun(r)
    requires writer.Valid() && k < |writer.calls| && AllFit(kind, writer.calls[k].inserted)
    requires r.w.c.st == writer.world.c.st && |r.w.c.outbox| > 0 && writer.world.c.outbox[k..] == r.w.c.outbox
    ensures Kept(base, objects', RunTask(r).store) && added == NameList(r.w.c.st.heap, r.w.c.outbox[0].inserted)
  {
    NoticeGiven(writer, kind, k);
    var call := writer.calls[k];
    objects', added, deleted :=
      RunCallback(base, kind, call.erased, call.inserted, objects, r.store, r.w.c.st.heap, r.w.c.outbox[0]);
  }

  /** The update request to every searcher. */
  method UpdateSearchers(searchers: seq<Searcher>, base: BaseFormat, added: seq<SegId>, deleted: seq<SegId>,
      objects: Objects, ghost r: Rep, ghost writer: Index, ghost others: set<object>)
    requires Consumes(base) && CanRun(r) && Kept(base, objects, RunTask(r).store)
    requires added == NameList(r.w.c.st.heap, r.w.c.outbox[0].inserted)
    requires OwnIndexes(searchers) && Serving(searchers, r.searchers)
    requires writer.Valid() && Clear(writer.repr, searchers) && Clear(others, searchers)
    modifies set s | s in searchers :: s.index
    ensures Serving(searchers, RunTask(r).searchers) && Clear(writer.repr, searchers) && Clear(others, searchers)
    ensures unchanged(writer) && writer.Valid()
  {
    ToldIsRun(r);
    ClearTogether(writer.repr, others, searchers);
    NotifyAll(searchers, base, added, deleted, objects, RunTask(r).store, r.searchers, writer.repr + others);
    ClearTogether(writer.repr, others, searchers);
  }

  // ----------------------------------------------------------------------------- the shard

  class Cluster {
    const base: BaseFormat
    const kind: SegmentType
    const writer: Index
    const searchers: seq<Searcher>
    var objects: Objects
    /** How many callbacks have been served. */
    var served: nat

    /** With these stored bytes and so many callbacks served, the objects stand for this state of the replication
        model. */
    ghost predicate AtWith(objects: Objects, served: nat, r: Rep)
      reads writer, writer.objs, set o | o in writer.objs :: o.index
      reads set s | s in searchers :: s.index
      reads Parts(searchers)
    {
      && Restoring(base) && Consumes(base)
      && writer.Valid() && writer.threshold >= 1
      && OwnIndexes(searchers) && Clear(writer.repr, searchers) && Clear({this}, searchers) && this !in writer.repr
      && TrailsBy(r, writer.world, served)
      && Kept(base, objects, r.store)
      && Serving(searchers, r.searchers)
    }

    ghost predicate At(r: Rep)
      reads `objects, `served, writer, writer.objs, set o | o in writer.objs :: o.index
      reads set s | s in searchers :: s.index
      reads Parts(searchers)
    {
      AtWith(objects, served, r)
    }

    /** The objects stand for the replication model after these events. */
    ghost predicate After(es: seq<Event>)
      reads `objects, `served, writer, writer.objs, set o | o in writer.objs :: o.index
      reads set s | s in searchers :: s.index
      reads Parts(searchers)
    {
      && LegalEvents(map[], es)
      && At(Reach(|searchers|, writer.threshold, writer.merging, es))
    }

    /** An index without documents and searchers without segments. */
    constructor (base: BaseFormat, kind: SegmentType, writer: Index, searchers: seq<Searcher>)
      requires Restoring(base) && Consumes(base) && writer.Valid() && writer.threshold >= 1
      requires writer.world == EMPTY_WORLD
      requires OwnIndexes(searchers) && Serving(searchers, Blank(|searchers|)) && Clear(writer.repr, searchers)
      ensures this.writer == writer && this.searchers == searchers && After([])
    {
      this.base, this.kind, this.writer, this.searchers := base, kind, writer, searchers;
      objects, served := map[], 0;
      new;
      ReachStart(|searchers|, writer.threshold, writer.merging);
      Commit(map[], 0, Reach(|searchers|, writer.threshold, writer.merging, []));
    }

    method AddAt(docs: seq<Doc>, ghost r: Rep, ghost r': Rep)
      requires At(r) && Shape(r.w.c) && AllNew(writer.world.added, docs)
      requires r' == Happens(r, writer.threshold, writer.merging, Call(AddOp(docs)))
      modifies writer.repr
      ensures At(r') && unchanged(this)
    {
      CallFollows(r, writer.world, served, writer.threshold, writer.merging, AddOp(docs));
      AddBeside(writer, docs, searchers, r.searchers, {this});
    }

    /** A write request that adds documents. */
    method Write(docs: seq<Doc>, ghost es: seq<Event>)
      requires After(es) && AllNew(writer.world.added, docs)
      modifies writer.repr
      ensures After(es + [Call(AddOp(docs))])
    {
      ghost var e := Call(AddOp(docs));
      ghost var r := Reach(|searchers|, writer.threshold, writer.merging, es);
      ReachMore(|searchers|, writer.threshold, writer.merging, es, e);
      LegalMore(Fresh(|searchers|), writer.threshold, writer.merging, es, e);
      AddAt(docs, r, Happens(r, writer.threshold, writer.merging, e));
    }

    method EraseAt(xs: seq<DocId>, ghost r: Rep, ghost r': Rep)
      requires At(r) && Shape(r.w.c)
      requires r' == Happens(r, writer.threshold, writer.merging, Call(EraseOp(Elems(xs))))
      modifies writer.repr
      ensures At(r') && unchanged(this)
    {
      CallFollows(r, writer.world, served, writer.threshold, writer.merging, EraseOp(Elems(xs)));
      EraseBeside(writer, xs, searchers, r.searchers, {this});
    }

    /** A call of `erase`. */
    method Remove(xs: seq<DocId>, ghost es: seq<Event>)
      requires After(es)
      modifies writer.repr
      ensures After(es + [Call(EraseOp(Elems(xs)))])
    {
      ghost var e := Call(EraseOp(Elems(xs)));
      ghost var r := Reach(|searchers|, writer.threshold, writer.merging, es);
      ReachMore(|searchers|, writer.threshold, writer.merging, es, e);
      LegalMore(Fresh(|searchers|), writer.threshold, writer.merging, es, e);
      EraseAt(xs, r, Happens(r, writer.threshold, writer.merging, e));
    }

    method Commit(objects': Objects, served': nat, ghost r: Rep)
      requires AtWith(objects', served', r)
      modifies this`objects, this`served
      ensures At(r)
    {
      objects, served := objects', served';
      assert writer.Valid();
      assert Serving(searchers, r.searchers) by {
        forall i | 0 <= i < |searchers| ensures Stands(searchers[i], r.searchers[i]) {
        }
      }
    }

    /** The update request to every searcher, with the store as it is by then. */
    method Deliver(objects': Objects, added: seq<SegId>, deleted: seq<SegId>, ghost r: Rep, ghost r': Rep)
      requires At(r) && CanRun(r) && r' == RunTask(r) && Kept(base, objects', r'.store)
      requires added == NameList(r.w.c.st.heap, r.w.c.outbox[0].inserted)
      modifies set s | s in searchers :: s.index
      ensures AtWith(objects', served + 1, r')
    {
      ServedOne(r, writer.world, served);
      UpdateSearchers(searchers, base, added, deleted, objects', r, writer, {this});
    }

    /** The oldest task: the puts, the deletes, and the update request to every searcher. */
    method RunAt(ghost r: Rep, ghost r': Rep)
      requires At(r) && CanRun(r) && r' == RunTask(r)
      requires served < |writer.calls| && AllFit(kind, writer.calls[served].inserted)
      modifies this`objects, this`served, set s | s in searchers :: s.index
      ensures At(r')
    {
      var objects', added, deleted := UpdateStore(writer, served, base, kind, objects, r);
      Deliver(objects', added, deleted, r, r');
      Commit(objects', served + 1, r');
    }

    /** One turn of the callback runner; nothing happens when no task is queued. */
    method RunOldest(ghost es: seq<Event>)
      requires After(es) && (served < |writer.calls| ==> AllFit(kind, writer.calls[served].inserted))
      modifies this`objects, this`served, set s | s in searchers :: s.index
      ensures After(es + [TaskRuns])
    {
      ghost var r := Reach(|searchers|, writer.threshold, writer.merging, es);
      ReachMore(|searchers|, writer.threshold, writer.merging, es, TaskRuns);
      LegalMore(Fresh(|searchers|), writer.threshold, writer.merging, es, TaskRuns);
      if served < |writer.calls| {
        ReachInv(|searchers|, writer.threshold, writer.merging, es);
        TaskCanRun(r, writer.threshold);
        RunAt(r, RunTask(r));
      }
    }

    /** A search at a searcher. With the queue empty and all erases of the run in reach it is brute force over the live
        documents the writer sealed. */
    method SearchAt(i: nat, dist: Vector -> real, k: nat, answers: seq<seq<int>>, ghost es: seq<Event>)
      returns (ids: seq<DocId>)
      requires After(es) && served == |writer.calls| && i < |searchers|
      requires ErasesReach(Fresh(|searchers|), writer.threshold, writer.merging, es, i)
      requires searchers[i].index.Answered(dist, k, answers)
      ensures Search.KNearest(ids, SealedLive(Reach(|searchers|, writer.threshold, writer.merging, es).w), dist, k)
    {
      ghost var n, t, merging := |searchers|, writer.threshold, writer.merging;
      ghost var r := Reach(n, t, merging, es);
      ReachInv(n, t, merging, es);
      assert Stands(searchers[i], r.searchers[i]);
      AllServed(writer, served, r);
      ids := EndToEnd.SearchAfterRun(searchers[i].index, dist, k, answers, n, t, merging, es, i, r);
    }
  }

  /** A shard of n searchers before anything happened. */
  method Start(n: nat, threshold: nat, merging: bool, base: BaseFormat, kind: SegmentType) returns (c: Cluster)
    requires threshold >= 1 && Restoring(base) && Consumes(base)
    ensures c.After([]) && |c.searchers| == n && c.writer.threshold == threshold && c.writer.merging == merging
  {
    var writer := new Index(threshold, merging);
    var searchers := MakeSearchers(n, threshold, merging, writer.repr);
    c := new Cluster(base, kind, writer, searchers);
  }
}
