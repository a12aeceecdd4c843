/** One queued task of the writer and the update it triggers at a searcher, down to the bytes in the object store. */
module Tasks {
  import opened Prelude
  import opened SlotModel
  import opened Codec
  import opened Segments
  import opened SegmentFile
  import opened IndexModel
  import opened TaskQueue
  import opened Replication
  import IndexObject

  /** The bytes read back as this segment, with nothing behind it. */
  ghost predicate ReadsAs(base: BaseFormat, bytes: seq<byte>, seg: Seg) {
    match Decode(base, bytes)
    case Some((Some(im), rest)) =>
      && rest == [] && WellFormed(im.slots) && Unique(im.slots)
      && Seg(im.segId, im.slots.ids.Keys, Live(im.slots)) == seg
    case _ => false
  }

  /** The object store: bytes under names. */
  type Objects = map<SegId, seq<byte>>

  /** The store holds these segments under these names and nothing else. */
  ghost predicate Kept(base: BaseFormat, objects: Objects, vals: Store) {
    objects.Keys == vals.Keys && forall x :: x in vals ==> ReadsAs(base, objects[x], vals[x])
  }

  lemma {:induction false} KeptPut(base: BaseFormat, objects: Objects, vals: Store, bytes: seq<byte>, val: Seg)
    requires Kept(base, objects, vals) && ReadsAs(base, bytes, val)
    ensures Kept(base, objects[val.id := bytes], vals[val.id := val])
  {
  }

  /** The references are these segments, each small enough to be written. */
  ghost predicate Given(segs: seq<Segment>, heap: seq<Seg>, hs: seq<nat>, kind: SegmentType)
    reads segs, set o | o in segs :: o.index
  {
    && |segs| == |hs|
    && forall i :: 0 <= i < |hs| ==>
         && hs[i] < |heap| && segs[i].Ok() && segs[i].Val() == heap[hs[i]]
         && Fits(Image(kind, segs[i].index.Value(), segs[i].segId))
  }

  /** A serialized segment holds what the segment held. */
  method Serialize(base: BaseFormat, kind: SegmentType, seg: Segment) returns (bytes: seq<byte>)
    requires Restoring(base) && seg.Ok() && Fits(Image(kind, seg.index.Value(), seg.segId))
    ensures ReadsAs(base, bytes, seg.Val())
  {
    ghost var o;
    bytes, o := Upload(base, kind, seg);
    DecodeEncode(base, Image(kind, seg.index.Value(), seg.segId), o, []);
    assert bytes + [] == bytes;
  }

  /** After i segments, the rest of the loop takes the store as it is now to the end. */
  ghost predicate Putting(vals: Store, heap: seq<Seg>, hs: seq<nat>, i: nat, now: Store) {
    && i <= |hs| && (forall h :: h in hs ==> h < |heap|) && (forall h :: h in hs[i..] ==> h < |heap|)
    && PutObjects(vals, heap, hs) == PutObjects(now, heap, hs[i..])
  }

  lemma {:induction false} PuttingNext(vals: Store, heap: seq<Seg>, hs: seq<nat>, i: nat, now: Store)
    requires Putting(vals, heap, hs, i, now) && i < |hs|
    ensures hs[i] < |heap| && Putting(vals, heap, hs, i + 1, now[heap[hs[i]].id := heap[hs[i]]])
  {
    var rest := hs[i..];
    assert rest[0] == hs[i] && rest[1..] == hs[i + 1..];
    assert rest[0] in rest && forall h :: h in rest[1..] ==> h in rest;
    assert PutObjects(now, heap, rest) == PutObjects(now[heap[rest[0]].id := heap[rest[0]]], heap, rest[1..]);
  }

  /** `putObject` of a serialized segment, under the name it bears now. */
  method PutSegment(base: BaseFormat, kind: SegmentType, seg: Segment, objects: Objects, ghost vals: Store,
      ghost val: Seg)
    returns (objects': Objects, id: SegId)
    requires Restoring(base) && Kept(base, objects, vals)
    requires seg.Ok() && seg.Val() == val && Fits(Image(kind, seg.index.Value(), seg.segId))
    ensures id == val.id && Kept(base, objects', vals[val.id := val])
  {
    id := seg.segId;
    var bytes := Serialize(base, kind, seg);
    KeptPut(base, objects, vals, bytes, val);
    objects' := objects[id := bytes];
  }

  /** The first i segments are in the store and their names collected. */
  ghost predicate PutSoFar(base: BaseFormat, objects: Objects, added: seq<SegId>, vals: Store, heap: seq<Seg>,
      hs: seq<nat>, i: nat, now: Store)
  {
    && Putting(vals, heap, hs, i, now) && Kept(base, objects, now)
    && added == NameList(heap, hs)[..i]
  }

  method PutNext(base: BaseFormat, kind: SegmentType, segs: seq<Segment>, i: nat, objects: Objects,
                 added: seq<SegId>, ghost vals: Store, ghost heap: seq<Seg>, ghost hs: seq<nat>, ghost now: Store)
    returns (objects': Objects, added': seq<SegId>, ghost now': Store)
    requires Restoring(base) && Given(segs, heap, hs, kind)
    requires i < |segs| && PutSoFar(base, objects, added, vals, heap, hs, i, now)
    ensures PutSoFar(base, objects', added', vals, heap, hs, i + 1, now')
  {
    PuttingNext(vals, heap, hs, i, now);
    NameNext(heap, hs, NameList(heap, hs), i);
    now' := now[heap[hs[i]].id := heap[hs[i]]];
    var id;
    objects', id := PutSegment(base, kind, segs[i], objects, now, heap[hs[i]]);
    added' := added + [id];
  }

  /** The put loop of a task: every segment goes in under the name it bears now. */
  method PutSegments(base: BaseFormat, kind: SegmentType, segs: seq<Segment>, objects: Objects,
                     ghost vals: Store, ghost heap: seq<Seg>, ghost hs: seq<nat>)
    returns (objects': Objects, added: seq<SegId>)
    requires Restoring(base) && Kept(base, objects, vals) && Given(segs, heap, hs, kind)
    ensures (forall h :: h in hs ==> h < |heap|) && added == NameList(heap, hs)
    ensures Kept(base, objects', PutObjects(vals, heap, hs))
  {
    objects', added := objects, [];
    var i := 0;
    ghost var now: Store := vals;
    PuttingStarts(vals, heap, hs);
    while i < |segs|
      invariant 0 <= i <= |segs| && Given(segs, heap, hs, kind)
      invariant PutSoFar(base, objects', added, vals, heap, hs, i, now)
    {
      objects', added, now := PutNext(base, kind, segs, i, objects', added, vals, heap, hs, now);
      i := i + 1;
    }
    PuttingEnds(vals, heap, hs, now);
  }

  lemma {:induction false} PuttingStarts(vals: Store, heap: seq<Seg>, hs: seq<nat>)
    requires forall i :: 0 <= i < |hs| ==> hs[i] < |heap|
    ensures Putting(vals, heap, hs, 0, vals)
  {
    assert hs[0..] == hs;
  }

  lemma {:induction false} PuttingEnds(vals: Store, heap: seq<Seg>, hs: seq<nat>, now: Store)
    requires Putting(vals, heap, hs, |hs|, now)
    ensures now == PutObjects(vals, heap, hs)
  {
    assert hs[|hs|..] == [];
  }

  lemma {:induction false} NameNext(heap: seq<Seg>, hs: seq<nat>, names: seq<SegId>, i: nat)
    requires (forall h :: h in hs ==> h < |heap|) && names == NameList(heap, hs) && i < |hs|
    ensures hs[i] < |heap| && names[..i + 1] == names[..i] + [heap[hs[i]].id]
  {
    assert hs[i] in hs;
  }

  /** The delete loop of a task. */
  method DeleteNames(base: BaseFormat, ids: seq<SegId>, objects: Objects, ghost vals: Store)
    returns (objects': Objects, deleted: seq<SegId>)
    requires Kept(base, objects, vals)
    ensures deleted == ids && Kept(base, objects', vals - NameSet(ids))
  {
    objects', deleted := objects, [];
    var i := 0;
    assert vals - NameSet(ids[..0]) == vals;
    while i < |ids|
      invariant 0 <= i <= |ids| && deleted == ids[..i]
      invariant Kept(base, objects', vals - NameSet(ids[..i]))
    {
      deleted := deleted + [ids[i]];
      assert NameSet(ids[..i + 1]) == NameSet(ids[..i]) + {ids[i]};
      objects' := objects' - {ids[i]};
      i := i + 1;
    }
    assert ids[..|ids|] == ids;
  }

  /** `indexUpdateCallback`: what the queued task does to the store, and the names it sends to the searchers. */
  method RunCallback(base: BaseFormat, kind: SegmentType, ids: seq<SegId>, segs: seq<Segment>, objects: Objects,
                     ghost vals: Store, ghost heap: seq<Seg>, ghost t: Task)
    returns (objects': Objects, added: seq<SegId>, deleted: seq<SegId>)
    requires Restoring(base) && Kept(base, objects, vals) && Given(segs, heap, t.inserted, kind) && ids == t.erased
    ensures (forall h :: h in t.inserted ==> h < |heap|) && added == NameList(heap, t.inserted) && deleted == t.erased
    ensures Kept(base, objects', StoreAfter(vals, heap, t))
  {
    objects', added := PutSegments(base, kind, segs, objects, vals, heap, t.inserted);
    objects', deleted := DeleteNames(base, ids, objects', PutObjects(vals, heap, t.inserted));
  }

  lemma {:induction false} PushHandles(s: State, seg: Seg)
    requires HandlesOk(s)
    ensures HandlesOk(PushSegment(s, seg))
  {
    PlaceHandles(s.levels, |s.heap|, seg.Size(), |s.heap| + 1);
  }

  ghost function Fetched(s: State, vals: Store, id: SegId): State {
    if id in vals then PushSegment(s, vals[id]) else s
  }

  lemma {:induction false} FetchNext(s: State, vals: Store, ids: seq<SegId>, i: nat)
    requires i < |ids|
    ensures FetchAll(s, vals, ids[i..]) == FetchAll(Fetched(s, vals, ids[i]), vals, ids[i + 1..])
  {
    assert ids[i..][1..] == ids[i + 1..];
  }

  class Searcher {
    const index: IndexObject.Index

    constructor (index: IndexObject.Index)
      ensures this.index == index
    {
      this.index := index;
    }

    /** Reads one stored object. */
    method Fetch(base: BaseFormat, bytes: seq<byte>, ghost seg: Seg) returns (segment: Segment)
      requires Consumes(base) && ReadsAs(base, bytes, seg)
      ensures fresh(segment) && fresh(segment.index) && segment.Ok() && segment.Val() == seg
    {
      var loaded, rest := Download(base, bytes);
      segment := loaded.seg;
    }

    /** Reads one stored object and pushes it. */
    method Take(base: BaseFormat, bytes: seq<byte>, ghost seg: Seg, ghost st: State, ghost ts: seq<Task>)
      requires Consumes(base) && ReadsAs(base, bytes, seg) && index.Models(st, ts)
      modifies index`levels, index`counter, index`sz, index`segments, index`objs, index`repr, index`calls
      ensures index.Models(PushSegment(st, seg), ts) && fresh(index.repr - old(index.repr))
    {
      var segment := Fetch(base, bytes, seg);
      index.Push(segment, false, st, ts);
    }

    /** Fetches one added name and pushes what it finds. */
    method FetchOne(base: BaseFormat, id: SegId, objects: Objects, ghost vals: Store, ghost st: State,
        ghost ts: seq<Task>)
      returns (ghost st': State)
      requires Consumes(base) && Kept(base, objects, vals) && index.Models(st, ts) && HandlesOk(st)
      modifies index`levels, index`counter, index`sz, index`segments, index`objs, index`repr, index`calls
      ensures st' == Fetched(st, vals, id) && index.Models(st', ts) && HandlesOk(st')
      ensures fresh(index.repr - old(index.repr))
    {
      st' := st;
      if id in objects {
        Take(base, objects[id], vals[id], st, ts);
        PushHandles(st, vals[id]);
        st' := PushSegment(st, vals[id]);
      }
    }

    /** `ProcessUpdateRequest`: every added name is fetched and pushed; a deleted name is only looked up. */
    method ProcessUpdateRequest(base: BaseFormat, added: seq<SegId>, deleted: seq<SegId>, objects: Objects,
                                ghost vals: Store, ghost st: State, ghost ts: seq<Task>)
      requires Consumes(base) && Kept(base, objects, vals) && index.Models(st, ts) && HandlesOk(st)
      modifies index`levels, index`counter, index`sz, index`segments, index`objs, index`repr, index`calls
      ensures index.Models(FetchAll(st, vals, added), ts) && HandlesOk(FetchAll(st, vals, added))
      ensures fresh(index.repr - old(index.repr))
    {
      var i := 0;
      ghost var now := st;
      while i < |added|
        invariant 0 <= i <= |added| && index.Models(now, ts) && HandlesOk(now) && fresh(index.repr - old(index.repr))
        invariant FetchAll(st, vals, added) == FetchAll(now, vals, added[i..])
      {
        FetchNext(now, vals, added, i);
        now := FetchOne(base, added[i], objects, vals, now, ts);
        i := i + 1;
      }
      LookUp(deleted, now, ts);
    }

    /** The names to delete are looked up one by one; the list keeps them all. */
    method LookUp(deleted: seq<SegId>, ghost st: State, ghost ts: seq<Task>)
      requires index.Models(st, ts) && HandlesOk(st)
      ensures index.Models(st, ts)
    {
      var i := 0;
      while i < |deleted| {
        var found := index.FindSegment(deleted[i], st, ts);
        i := i + 1;
      }
    }
  }
}
