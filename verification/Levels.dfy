/** The size levels of `SegmentStorage`: slots that hold a segment handle or null, and the bag of handles they hold. */
module Levels {
  import opened Prelude

  /** A `shared_ptr` slot of a level: null after its segment was merged away. */
  type Slot = Option<nat>
  type LevelTable = seq<seq<Slot>>

  ghost function SlotBag(level: seq<Slot>): multiset<nat> {
    if level == [] then multiset{}
    else SlotBag(level[..|level| - 1]) +
         (match level[|level| - 1] case None => multiset{} case Some(h) => multiset{h})
  }

  ghost function Bag(levels: LevelTable): multiset<nat> {
    if levels == [] then multiset{}
    else Bag(levels[..|levels| - 1]) + SlotBag(levels[|levels| - 1])
  }

  predicate NoNulls(levels: LevelTable) {
    forall i, j :: 0 <= i < |levels| && 0 <= j < |levels[i]| ==> levels[i][j].Some?
  }

  // ------------------------------------------------------------------ one level

  lemma {:induction false} SlotClear(level: seq<Slot>, j: nat)
    requires j < |level| && level[j].Some?
    ensures level[j].value in SlotBag(level)
    ensures SlotBag(level[j := None]) == SlotBag(level) - multiset{level[j].value}
  {
    var n := |level| - 1;
    var cleared := level[j := None];
    if j == n {
      assert cleared[..n] == level[..n];
    } else {
      assert cleared[..n] == level[..n][j := None];
      SlotClear(level[..n], j);
    }
  }

  lemma {:induction false} SlotPush(level: seq<Slot>, h: nat)
    ensures SlotBag(level + [Some(h)]) == SlotBag(level) + multiset{h}
  {
    assert (level + [Some(h)])[..|level|] == level;
  }

  lemma {:induction false} SlotAt(level: seq<Slot>, h: nat) returns (j: nat)
    requires h in SlotBag(level)
    ensures j < |level| && level[j] == Some(h)
  {
    var n := |level| - 1;
    if level[n] == Some(h) {
      j := n;
    } else {
      j := SlotAt(level[..n], h);
    }
  }

  /** Two slots of a level give two entries of its bag. */
  lemma {:induction false} SlotTwo(level: seq<Slot>, j: nat, k: nat)
    requires j < |level| && k < |level| && j != k && level[j].Some? && level[k].Some?
    ensures multiset{level[j].value, level[k].value} <= SlotBag(level)
    ensures SlotBag(level[j := None][k := None]) == SlotBag(level) - multiset{level[j].value} - multiset{level[k].value}
  {
    SlotClear(level, j);
    SlotClear(level[j := None], k);
  }

  // ------------------------------------------------------------------ all levels

  lemma {:induction false} BagUpdate(levels: LevelTable, i: nat, level: seq<Slot>)
    requires i < |levels|
    ensures SlotBag(levels[i]) <= Bag(levels)
    ensures Bag(levels[i := level]) == Bag(levels) - SlotBag(levels[i]) + SlotBag(level)
  {
    var n := |levels| - 1;
    var updated := levels[i := level];
    if i == n {
      assert updated[..n] == levels[..n];
    } else {
      assert updated[..n] == levels[..n][i := level];
      BagUpdate(levels[..n], i, level);
      Exchange(Bag(levels[..n]), SlotBag(levels[i]), SlotBag(level), SlotBag(levels[n]));
    }
  }

  lemma {:induction false} Exchange<T>(all: multiset<T>, out: multiset<T>, into: multiset<T>, rest: multiset<T>)
    requires out <= all
    ensures out <= all + rest
    ensures all - out + into + rest == all + rest - out + into
  {
  }

  lemma {:induction false} BagPush(levels: LevelTable, level: seq<Slot>)
    ensures Bag(levels + [level]) == Bag(levels) + SlotBag(level)
  {
    assert (levels + [level])[..|levels|] == levels;
  }

  lemma {:induction false} BagAt(levels: LevelTable, h: nat) returns (i: nat, j: nat)
    requires h in Bag(levels)
    ensures i < |levels| && j < |levels[i]| && levels[i][j] == Some(h)
  {
    var n := |levels| - 1;
    if h in SlotBag(levels[n]) {
      i := n;
      j := SlotAt(levels[n], h);
    } else {
      i, j := BagAt(levels[..n], h);
    }
  }

  lemma {:induction false} InBag(levels: LevelTable, i: nat, j: nat)
    requires i < |levels| && j < |levels[i]| && levels[i][j].Some?
    ensures levels[i][j].value in SlotBag(levels[i])
    ensures levels[i][j].value in Bag(levels)
  {
    SlotClear(levels[i], j);
    BagUpdate(levels, i, []);
  }

  lemma {:induction false} OnceEach<T>(all: multiset<T>, x: T, y: T)
    requires multiset{x, y} <= all && all[x] == 1
    ensures x != y
  {
    assert multiset{x, y}[x] <= all[x];
  }

  lemma {:induction false} OnceInPart<T>(all: multiset<T>, part: multiset<T>, x: T, y: T)
    requires part <= all && x in part && all[x] == 1 && y in all - part
    ensures x != y
  {
    assert (all - part)[x] + part[x] == all[x];
  }

  lemma {:induction false} LevelsDiffer(levels: LevelTable, i: nat, j: nat, a: nat, b: nat)
    requires forall h :: h in Bag(levels) ==> Bag(levels)[h] == 1
    requires i < |levels| && j < |levels[i]| && levels[i][j].Some?
    requires a < |levels| && b < |levels[a]| && levels[a][b].Some? && i != a
    ensures levels[i][j].value != levels[a][b].value
  {
    var v := levels[i][j].value;
    InBag(levels, i, j);
    BagUpdate(levels, i, []);
    InBag(levels[i := []], a, b);
    OnceInPart(Bag(levels), SlotBag(levels[i]), v, levels[a][b].value);
  }

  /** Objects held once each: different slots hold different objects. */
  lemma {:induction false} SlotsDiffer(levels: LevelTable, i: nat, j: nat, a: nat, b: nat)
    requires forall h :: h in Bag(levels) ==> Bag(levels)[h] == 1
    requires i < |levels| && j < |levels[i]| && levels[i][j].Some?
    requires a < |levels| && b < |levels[a]| && levels[a][b].Some? && (i != a || j != b)
    ensures levels[i][j].value != levels[a][b].value
  {
    if i == a {
      InBag(levels, i, j);
      SlotTwo(levels[i], j, b);
      BagUpdate(levels, i, []);
      OnceEach(Bag(levels), levels[i][j].value, levels[a][b].value);
    } else {
      LevelsDiffer(levels, i, j, a, b);
    }
  }

  // ------------------------------------------------------------------ operations

  /** Pads the table with empty levels up to n. */
  function GrowTo(levels: LevelTable, n: nat): (grown: LevelTable)
    ensures |grown| == if |levels| < n then n else |levels|
    ensures levels <= grown
    ensures forall i :: |levels| <= i < |grown| ==> grown[i] == []
    decreases n - |levels|
  {
    if |levels| < n then GrowTo(levels + [[]], n) else levels
  }

  lemma {:induction false} GrowToBag(levels: LevelTable, n: nat)
    ensures Bag(GrowTo(levels, n)) == Bag(levels)
    decreases n - |levels|
  {
    if |levels| < n {
      BagPush(levels, []);
      GrowToBag(levels + [[]], n);
    }
  }

  /** The least e >= i with 2^e >= size: where the shift loop of `add` stops. */
  function CeilLog(size: nat, i: nat): (e: nat)
    ensures i <= e
    ensures Pow2(e) >= size
    ensures e == i || Pow2(e - 1) < size
    decreases size - Pow2(i)
  {
    if Pow2(i) < size then CeilLog(size, i + 1) else i
  }

  function LevelFor(size: nat): nat {
    var e := CeilLog(size, 0);
    if e == 0 then 0 else e - 1
  }

  /** `SegmentStorage::add`: grow to the level the size calls for and append there. */
  function Place(levels: LevelTable, h: nat, size: nat): LevelTable {
    var e := CeilLog(size, 0);
    var lv := LevelFor(size);
    var grown := GrowTo(GrowTo(levels, e), lv + 1);
    grown[lv := grown[lv] + [Some(h)]]
  }

  lemma {:induction false} PlaceBag(levels: LevelTable, h: nat, size: nat)
    ensures Bag(Place(levels, h, size)) == Bag(levels) + multiset{h}
  {
    var e, lv := CeilLog(size, 0), LevelFor(size);
    var grown := GrowTo(GrowTo(levels, e), lv + 1);
    GrowToBag(levels, e);
    GrowToBag(GrowTo(levels, e), lv + 1);
    PushInto(grown, lv, h);
  }

  /** Moves the left segment of slots (i, j), (i, j + 1) one level up and empties both slots. */
  function Promote(levels: LevelTable, i: nat, j: nat): LevelTable
    requires i < |levels| && j + 1 < |levels[i]|
  {
    var grown := if i + 1 == |levels| then levels + [[]] else levels;
    var pushed := grown[i + 1 := grown[i + 1] + [grown[i][j]]];
    pushed[i := pushed[i][j := None][j + 1 := None]]
  }

  lemma {:induction false} MoveUp(all: multiset<nat>, level: multiset<nat>, l: nat, r: nat)
    requires multiset{l, r} <= level && level <= all
    ensures all + multiset{l} - level + (level - multiset{l} - multiset{r}) == all - multiset{r}
    ensures |all - multiset{r}| == |all| - 1
  {
    assert r in level;
    assert r in all;
  }

  lemma {:induction false} PushInto(levels: LevelTable, i: nat, h: nat)
    requires i < |levels|
    ensures Bag(levels[i := levels[i] + [Some(h)]]) == Bag(levels) + multiset{h}
  {
    SlotPush(levels[i], h);
    BagUpdate(levels, i, levels[i] + [Some(h)]);
    var all, level := Bag(levels), SlotBag(levels[i]);
    assert all - level + (level + multiset{h}) == all + multiset{h};
  }

  lemma {:induction false} PushedBag(levels: LevelTable, i: nat, h: nat)
    requires i < |levels|
    ensures
      var grown := if i + 1 == |levels| then levels + [[]] else levels;
      Bag(grown[i + 1 := grown[i + 1] + [Some(h)]]) == Bag(levels) + multiset{h}
  {
    var grown := if i + 1 == |levels| then levels + [[]] else levels;
    BagPush(levels, []);
    PushInto(grown, i + 1, h);
  }

  lemma {:induction false} PromoteBag(levels: LevelTable, i: nat, j: nat)
    requires i < |levels| && j + 1 < |levels[i]| && levels[i][j].Some? && levels[i][j + 1].Some?
    ensures multiset{levels[i][j].value, levels[i][j + 1].value} <= SlotBag(levels[i])
    ensures SlotBag(levels[i]) <= Bag(levels)
    ensures Bag(Promote(levels, i, j)) == Bag(levels) - multiset{levels[i][j + 1].value}
    ensures |Bag(Promote(levels, i, j))| == |Bag(levels)| - 1
  {
    var l, r := levels[i][j].value, levels[i][j + 1].value;
    var grown := if i + 1 == |levels| then levels + [[]] else levels;
    var pushed := grown[i + 1 := grown[i + 1] + [Some(l)]];
    PushedBag(levels, i, l);
    assert pushed[i] == levels[i];
    SlotTwo(levels[i], j, j + 1);
    BagUpdate(levels, i, []);
    BagUpdate(pushed, i, levels[i][j := None][j + 1 := None]);
    MoveUp(Bag(levels), SlotBag(levels[i]), l, r);
  }

  /** `erase(remove_if(...))`: drops the null slots of one level. */
  function DropNulls(level: seq<Slot>): (r: seq<Slot>)
    ensures |r| <= |level|
    ensures forall j :: 0 <= j < |r| ==> r[j].Some? && r[j] in level
  {
    if level == [] then []
    else if level[|level| - 1].None? then DropNulls(level[..|level| - 1])
    else DropNulls(level[..|level| - 1]) + [level[|level| - 1]]
  }

  lemma {:induction false} DropNullsBag(level: seq<Slot>)
    ensures SlotBag(DropNulls(level)) == SlotBag(level)
  {
    if level != [] {
      var n := |level| - 1;
      DropNullsBag(level[..n]);
      if level[n].Some? {
        SlotPush(DropNulls(level[..n]), level[n].value);
      }
    }
  }

  function Compacted(levels: LevelTable): (r: LevelTable)
    ensures |r| == |levels|
    ensures forall i :: 0 <= i < |r| ==> r[i] == DropNulls(levels[i])
  {
    seq(|levels|, i requires 0 <= i < |levels| => DropNulls(levels[i]))
  }

  lemma {:induction false} CompactedBag(levels: LevelTable)
    ensures Bag(Compacted(levels)) == Bag(levels)
    ensures NoNulls(Compacted(levels))
    decreases |levels|
  {
    if levels != [] {
      var n := |levels| - 1;
      CompactedBag(levels[..n]);
      assert Compacted(levels)[..n] == Compacted(levels[..n]);
      DropNullsBag(levels[n]);
    }
  }
}
