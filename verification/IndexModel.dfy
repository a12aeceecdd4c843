/** The segmented index as a value. Segment objects are shared between the flat list, the levels and queued
    callbacks, so they live in a `heap` and everything else holds handles into it. */
module IndexModel {
  import opened Prelude
  import opened Levels

  // ------------------------------------------------------------------- segments

  /** One segment object: its current name, the ids it has ever been given, and its live documents. */
  datatype Seg = Seg(id: SegId, known: set<DocId>, live: map<DocId, Vector>) {
    function Size(): nat { |live| }
  }

  function AddDoc(s: Seg, d: Doc): Seg {
    s.(known := s.known + {d.id}, live := s.live[d.id := d.vec])
  }

  function AddDocs(s: Seg, docs: seq<Doc>): Seg
    decreases |docs|
  {
    if docs == [] then s else AddDocs(AddDoc(s, docs[0]), docs[1..])
  }

  function EraseDocs(s: Seg, xs: set<DocId>): Seg {
    s.(live := s.live - xs)
  }

  /** The left segment after it absorbed the right one and drew a new name. */
  function Absorb(l: Seg, r: Seg, id: SegId): Seg {
    Seg(id, l.known + r.live.Keys, l.live + r.live)
  }

  // ---------------------------------------------------------------------- state

  /** The fields of `IIndex` and `SegmentStorage`. `heap` holds every segment object made so far in order of
      creation; `drawn` counts the calls of `rand()`. */
  datatype State = State(
    heap: seq<Seg>,
    segments: seq<nat>,
    levels: LevelTable,
    last: nat,
    drawn: nat,
    counter: int,
    sz: nat)

  /** The arguments of one update callback: names erased, objects inserted. */
  datatype Task = Task(erased: seq<SegId>, inserted: seq<nat>)

  const NO_TASK := Task([], [])

  /** Where `add` is: filling the open segment, or in the merge pass over one level. */
  datatype Phase = Filling | Passing(level: nat)

  /** The index with the callback arguments under construction, the callbacks made and not yet served, and
      the set of names a subscriber holds that applied every callback when it was made. */
  datatype Config = Config(st: State, phase: Phase, cur: Task, outbox: seq<Task>, mirror: set<SegId>)

  ghost predicate HandlesOk(st: State) {
    && st.last < |st.heap|
    && (forall h :: h in st.segments ==> h < |st.heap|)
    && (forall i, j :: 0 <= i < |st.levels| && 0 <= j < |st.levels[i]| && st.levels[i][j].Some? ==>
          st.levels[i][j].value < |st.heap|)
  }

  ghost predicate Shape(c: Config) {
    HandlesOk(c.st) && forall h :: h in c.cur.inserted ==> h < |c.st.heap|
  }

  const START := State([Seg(0, {}, map[])], [], [], 0, 1, 0, 0)

  function Begin(): Config {
    Config(START, Filling, NO_TASK, [], {})
  }

  // ---------------------------------------------------------------------- steps

  function PutDoc(st: State, d: Doc): State
    requires st.last < |st.heap|
  {
    st.(heap := st.heap[st.last := AddDoc(st.heap[st.last], d)])
  }

  /** Seals the open segment into the list and the levels and opens a new one. */
  function SealLast(st: State): State
    requires st.last < |st.heap|
  {
    State(
      st.heap + [Seg(st.drawn, {}, map[])],
      st.segments + [st.last],
      Place(st.levels, st.last, st.heap[st.last].Size()),
      |st.heap|,
      st.drawn + 1,
      st.counter + 1,
      st.sz + st.heap[st.last].Size())
  }

  predicate PairAt(st: State, i: nat, j: nat) {
    && i < |st.levels| && j + 1 < |st.levels[i]|
    && st.levels[i][j].Some? && st.levels[i][j + 1].Some?
    && st.levels[i][j].value < |st.heap| && st.levels[i][j + 1].value < |st.heap|
  }

  function PairSize(st: State, i: nat, j: nat): nat
    requires PairAt(st, i, j)
  {
    st.heap[st.levels[i][j].value].Size() + st.heap[st.levels[i][j + 1].value].Size()
  }

  /** Both slots hold a segment, and their live documents together are at most this many. */
  ghost predicate BothFit(heap: seq<Seg>, l: Slot, r: Slot, amount: nat) {
    && l.Some? && r.Some? && l.value < |heap| && r.value < |heap|
    && |heap[l.value].live| + |heap[r.value].live| <= amount
  }

  /** Merges slot (i, j + 1) into the object of slot (i, j), renames it and moves it one level up. */
  function MergePair(st: State, i: nat, j: nat): State
    requires PairAt(st, i, j)
  {
    var l, r := st.levels[i][j].value, st.levels[i][j + 1].value;
    st.(heap := st.heap[l := Absorb(st.heap[l], st.heap[r], st.drawn)],
        levels := Promote(st.levels, i, j),
        drawn := st.drawn + 1,
        counter := st.counter - 1)
  }

  function PairTask(st: State, cur: Task, i: nat, j: nat): Task
    requires PairAt(st, i, j)
  {
    var l, r := st.levels[i][j].value, st.levels[i][j + 1].value;
    Task(cur.erased + [st.heap[r].id, st.heap[l].id], cur.inserted + [l])
  }

  /** `find_if` by name followed by `erase`: drops the first entry with that name, if any. */
  function RemoveFirst(segments: seq<nat>, heap: seq<Seg>, id: SegId): (r: seq<nat>)
    requires forall h :: h in segments ==> h < |heap|
    ensures forall h :: h in r ==> h in segments
  {
    if segments == [] then []
    else
      assert segments[0] in segments && forall h :: h in segments[1..] ==> h in segments;
      if heap[segments[0]].id == id then segments[1..]
      else [segments[0]] + RemoveFirst(segments[1..], heap, id)
  }

  function RemoveNamed(segments: seq<nat>, heap: seq<Seg>, ids: seq<SegId>): (r: seq<nat>)
    requires forall h :: h in segments ==> h < |heap|
    ensures forall h :: h in r ==> h in segments
    decreases |ids|
  {
    if ids == [] then segments
    else RemoveNamed(RemoveFirst(segments, heap, ids[0]), heap, ids[1..])
  }

  /** The edit of `segments_` after a pass: append the products, then remove by the recorded names. */
  function SyncSegments(st: State, t: Task): State
    requires HandlesOk(st) && forall h :: h in t.inserted ==> h < |st.heap|
  {
    st.(segments := RemoveNamed(st.segments + t.inserted, st.heap, t.erased))
  }

  function NamesOf(heap: seq<Seg>, hs: seq<nat>): set<SegId>
    requires forall h :: h in hs ==> h < |heap|
  {
    set h | h in hs :: heap[h].id
  }

  /** The callback fires with the collected arguments. */
  function Emit(c: Config): Config
    requires Shape(c)
  {
    c.(cur := NO_TASK,
       outbox := c.outbox + [c.cur],
       mirror := c.mirror - NameSet(c.cur.erased) + NamesOf(c.st.heap, c.cur.inserted))
  }

  function NameSet(ids: seq<SegId>): set<SegId> {
    set x | x in ids
  }

  function FlushAdd(c: Config): Config
    requires Shape(c)
  {
    if c.cur.inserted == [] then c.(cur := NO_TASK) else Emit(c)
  }

  function FlushPass(c: Config): Config
    requires Shape(c) && c.phase.Passing?
  {
    var synced := c.(st := SyncSegments(c.st, c.cur), phase := Passing(c.phase.level + 1));
    if c.cur.erased != [] && c.cur.inserted != [] then Emit(synced) else synced.(cur := NO_TASK)
  }

  function Compact(c: Config): Config {
    c.(st := c.st.(levels := Compacted(c.st.levels)), phase := Filling)
  }

  /** `erase`: every entry of the list and the open segment mark the ids. */
  function EraseEverywhere(st: State, xs: set<DocId>): State {
    st.(heap := seq(|st.heap|, h requires 0 <= h < |st.heap| =>
      if h in st.segments || h == st.last then EraseDocs(st.heap[h], xs) else st.heap[h]))
  }

  // ----------------------------------------------------------------- operations

  function Put(c: Config, t: nat, d: Doc): Config
    requires c.st.last < |c.st.heap|
  {
    var c' := c.(st := PutDoc(c.st, d));
    if c'.st.heap[c'.st.last].Size() == t
    then c'.(st := SealLast(c'.st), cur := c'.cur.(inserted := c'.cur.inserted + [c'.st.last]))
    else c'
  }

  /** Adding documents one at a time; the batches of `add` refine this. */
  function PutAll(c: Config, t: nat, docs: seq<Doc>): (r: Config)
    requires c.st.last < |c.st.heap|
    ensures r.st.last < |r.st.heap|
    decreases |docs|
  {
    if docs == [] then c else PutAll(Put(c, t, docs[0]), t, docs[1..])
  }

  /** The inner loop of `merge` from slot j of the current level on; returns the budget left. */
  function PassFrom(c: Config, j: nat, amount: nat): (r: (Config, nat))
    requires Shape(c) && c.phase.Passing? && c.phase.level < |c.st.levels|
    ensures Shape(r.0) && r.0.phase == c.phase
    decreases |c.st.levels[c.phase.level]| - j
  {
    var i := c.phase.level;
    if j + 1 >= |c.st.levels[i]| then (c, amount)
    else if !PairAt(c.st, i, j) || PairSize(c.st, i, j) > amount then PassFrom(c, j + 1, amount)
    else
      PairKeepsShape(c, i, j);
      PassFrom(PairStep(c, j), j + 1, amount - PairSize(c.st, i, j))
  }

  lemma {:induction false} PairShrinks(c: Config, i: nat, j: nat)
    requires Shape(c) && c.phase == Passing(i) && PairAt(c.st, i, j)
    ensures |Bag(PairStep(c, j).st.levels)| < |Bag(c.st.levels)|
  {
    PromoteBag(c.st.levels, i, j);
  }

  /** A pass changes nothing or leaves fewer segments in the levels. */
  lemma {:induction false} PassShrinks(c: Config, j: nat, amount: nat, c': Config)
    requires Shape(c) && c.phase.Passing? && c.phase.level < |c.st.levels|
    requires c' == PassFrom(c, j, amount).0
    ensures c' == c || |Bag(c'.st.levels)| < |Bag(c.st.levels)|
    decreases |c.st.levels[c.phase.level]| - j
  {
    var i := c.phase.level;
    if j + 1 >= |c.st.levels[i]| {
    } else if !PairAt(c.st, i, j) || PairSize(c.st, i, j) > amount {
      PassShrinks(c, j + 1, amount, c');
    } else {
      PairKeepsShape(c, i, j);
      PairShrinks(c, i, j);
      PassShrinks(PairStep(c, j), j + 1, amount - PairSize(c.st, i, j), c');
    }
  }

  function PairStep(c: Config, j: nat): Config
    requires c.phase.Passing? && PairAt(c.st, c.phase.level, j)
  {
    c.(st := MergePair(c.st, c.phase.level, j), cur := PairTask(c.st, c.cur, c.phase.level, j))
  }

  /** The outer loop of `merge`: one pass per level while budget is left. It ends although passes append
      levels, because a level is only appended by a merge and every merge removes a segment. */
  function Passes(c: Config, amount: nat): (r: (Config, nat))
    requires Shape(c) && c.phase.Passing?
    ensures Shape(r.0) && r.0.phase.Passing?
    decreases |Bag(c.st.levels)|, |c.st.levels| - c.phase.level
  {
    if amount > 0 && c.phase.level < |c.st.levels| then
      var (c', left) := PassFrom(c, 0, amount);
      PassShrinks(c, 0, amount, c');
      FlushKeepsShape(c');
      Passes(FlushPass(c'), left)
    else (c, amount)
  }

  function Merge(c: Config, amount: nat): Config
    requires Shape(c)
  {
    Compact(Passes(c.(phase := Passing(0)), amount).0)
  }

  const MERGE_AMOUNT := 200

  /** `Index::add` */
  function Add(c: Config, t: nat, merging: bool, docs: seq<Doc>): Config
    requires Shape(c)
  {
    PutAllKeepsShape(c, t, docs);
    var filled := FlushAdd(PutAll(c, t, docs));
    if merging then Merge(filled, MERGE_AMOUNT) else filled
  }

  /** `Index::erase` */
  function Erase(c: Config, xs: set<DocId>): Config {
    c.(st := EraseEverywhere(c.st, xs))
  }

  // ------------------------------------------------------------------ shape facts

  lemma {:induction false} PlaceHandles(levels: LevelTable, h: nat, size: nat, n: nat)
    requires h < n
    requires forall i, j :: 0 <= i < |levels| && 0 <= j < |levels[i]| && levels[i][j].Some? ==> levels[i][j].value < n
    ensures
      var r := Place(levels, h, size);
      forall i, j :: 0 <= i < |r| && 0 <= j < |r[i]| && r[i][j].Some? ==> r[i][j].value < n
  {
  }

  lemma {:induction false} PutKeepsShape(c: Config, t: nat, d: Doc)
    requires Shape(c)
    ensures Shape(Put(c, t, d))
  {
    PlaceHandles(c.st.levels, c.st.last, t, |c.st.heap| + 1);
  }

  lemma {:induction false} PutAllKeepsShape(c: Config, t: nat, docs: seq<Doc>)
    requires Shape(c)
    ensures Shape(PutAll(c, t, docs))
    decreases |docs|
  {
    if docs != [] {
      PutKeepsShape(c, t, docs[0]);
      PutAllKeepsShape(Put(c, t, docs[0]), t, docs[1..]);
    }
  }

  lemma {:induction false} PairKeepsShape(c: Config, i: nat, j: nat)
    requires Shape(c) && c.phase == Passing(i) && PairAt(c.st, i, j)
    ensures Shape(PairStep(c, j))
    ensures |PairStep(c, j).st.levels| >= |c.st.levels|
    ensures |PairStep(c, j).st.levels[i]| == |c.st.levels[i]|
  {
  }

  lemma {:induction false} FlushKeepsShape(c: Config)
    requires Shape(c) && c.phase.Passing?
    ensures Shape(FlushPass(c)) && FlushPass(c).st.levels == c.st.levels
  {
  }

  lemma {:induction false} CompactKeepsShape(c: Config)
    requires Shape(c)
    ensures Shape(Compact(c))
  {
  }

  lemma {:induction false} AddKeepsShape(c: Config, t: nat, merging: bool, docs: seq<Doc>)
    requires Shape(c)
    ensures Shape(Add(c, t, merging, docs))
  {
    PutAllKeepsShape(c, t, docs);
    if merging {
      var filled := FlushAdd(PutAll(c, t, docs));
      CompactKeepsShape(Passes(filled.(phase := Passing(0)), MERGE_AMOUNT).0);
    }
  }
}
