/** The file of a stored segment byte by byte, with every width, tag and position written out. */
module FileLayout {
  import opened Prelude
  import opened SlotModel
  import opened Codec

  /** Eight bytes, the lowest first. */
  function Word(v: nat): seq<byte> {
    [v % 256, v / 0x100 % 256, v / 0x1_0000 % 256, v / 0x100_0000 % 256,
     v / 0x1_0000_0000 % 256, v / 0x100_0000_0000 % 256, v / 0x1_0000_0000_0000 % 256, v / 0x100_0000_0000_0000 % 256]
  }

  function Chars(s: string): seq<byte> {
    seq(|s|, i requires 0 <= i < |s| => s[i] as int % 256)
  }

  /** A string: eight bytes of length, then its characters. */
  function LengthThenChars(s: string): seq<byte> {
    Word(|s|) + Chars(s)
  }

  ghost function IdTable(m: map<DocId, nat>, order: seq<DocId>): seq<byte>
    requires forall k :: k in order ==> k in m
  {
    if order == [] then []
    else
      assert order[0] in order && forall k :: k in order[1..] ==> k in order;
      LengthThenChars(order[0]) + Word(m[order[0]]) + IdTable(m, order[1..])
  }

  ghost function InvTable(m: map<nat, DocId>, order: seq<nat>): seq<byte>
    requires forall k :: k in order ==> k in m
  {
    if order == [] then []
    else
      assert order[0] in order && forall k :: k in order[1..] ==> k in order;
      Word(order[0]) + LengthThenChars(m[order[0]]) + InvTable(m, order[1..])
  }

  function Marks(order: seq<nat>): seq<byte> {
    if order == [] then [] else Word(order[0]) + Marks(order[1..])
  }

  /** The whole file: the type in four bytes, the library's vectors, the next slot, the three tables each after its
      number of entries, and the name of the segment. */
  ghost function FileOf(base: BaseFormat, im: Image, o: Order): seq<byte>
    requires Walked(im.slots, o)
  {
    var v := im.slots;
    KeysOfWalk(v.ids.Keys, o.ids);
    KeysOfWalk(v.inv.Keys, o.inv);
    (match im.kind case FaissFlat => [0, 0, 0, 0] case FaissHNSW => [1, 0, 0, 0])
    + base.enc(v.vectors)
    + Word(v.nextId)
    + Word(|v.ids|) + IdTable(v.ids, o.ids)
    + Word(|v.inv|) + InvTable(v.inv, o.inv)
    + Word(|v.erased|) + Marks(o.erased)
    + Word(im.segId)
  }

  lemma {:induction false} KeysOfWalk<K>(keys: set<K>, order: seq<K>)
    requires Walk(keys, order)
    ensures (forall k :: k in order ==> k in keys) && |order| == |keys|
  {
    DistinctCount(order);
    assert forall k :: k in order ==> k in Elems(order);
  }

  // ------------------------------------------------------------------------- numbers

  /** Shifting out a byte at a time. */
  lemma {:induction false} Shifts(v: nat)
    ensures v / 0x100 / 256 == v / 0x1_0000
    ensures v / 0x1_0000 / 256 == v / 0x100_0000
    ensures v / 0x100_0000 / 256 == v / 0x1_0000_0000
    ensures v / 0x1_0000_0000 / 256 == v / 0x100_0000_0000
    ensures v / 0x100_0000_0000 / 256 == v / 0x1_0000_0000_0000
    ensures v / 0x1_0000_0000_0000 / 256 == v / 0x100_0000_0000_0000
  {
  }

  lemma {:induction false} FourBytes(v: nat, n: nat)
    ensures EncNat(v, n + 4) ==
      [v % 256, v / 256 % 256, v / 256 / 256 % 256, v / 256 / 256 / 256 % 256] + EncNat(v / 256 / 256 / 256 / 256, n)
  {
    var v2 := v / 256 / 256;
    assert EncNat(v, n + 4) == [v % 256] + ([v / 256 % 256] + EncNat(v2, n + 2));
    assert EncNat(v2, n + 2) == [v2 % 256] + ([v2 / 256 % 256] + EncNat(v2 / 256 / 256, n));
  }

  /** Slots, sizes and lengths take eight bytes, the lowest first. */
  lemma {:induction false} SlotIsWord(v: nat)
    ensures EncSlot(v) == Word(v)
  {
    FourBytes(v, 4);
    FourBytes(v / 256 / 256 / 256 / 256, 0);
    Shifts(v);
  }

  /** What fits a field of eight bytes are the numbers below 2^64. */
  lemma {:induction false} FieldsHold64Bits()
    ensures Capacity(WORD) == 0x1_0000_0000_0000_0000
  {
    assert Capacity(8) == 256 * (256 * Capacity(6));
    assert Capacity(6) == 256 * (256 * Capacity(4));
    assert Capacity(4) == 256 * (256 * Capacity(2));
  }

  lemma {:induction false} StringIsNamed(s: string)
    ensures EncString(s) == LengthThenChars(s)
  {
    SlotIsWord(|s|);
    assert Bytes(s) == Chars(s);
  }

  /** The type takes four bytes: zeros for the flat index, one and zeros for the graph index. */
  lemma {:induction false} TagIsLiteral(kind: SegmentType)
    ensures EncNat(TypeTag(kind), TAG) == match kind case FaissFlat => [0, 0, 0, 0] case FaissHNSW => [1, 0, 0, 0]
  {
    FourBytes(TypeTag(kind), 0);
  }

  // -------------------------------------------------------------------------- tables

  lemma {:induction false} IdsAreTable(m: map<DocId, nat>, order: seq<DocId>)
    requires Elems(order) <= m.Keys
    ensures forall k :: k in order ==> k in m
    ensures Concat(EncIdEntry, Entries(m, order)) == IdTable(m, order)
  {
    assert forall k :: k in order ==> k in Elems(order);
    if order != [] {
      assert order[0] in order && forall k :: k in order[1..] ==> k in order;
      assert Entries(m, order)[1..] == Entries(m, order[1..]);
      IdsAreTable(m, order[1..]);
      StringIsNamed(order[0]);
      SlotIsWord(m[order[0]]);
    }
  }

  lemma {:induction false} InvIsTable(m: map<nat, DocId>, order: seq<nat>)
    requires Elems(order) <= m.Keys
    ensures forall k :: k in order ==> k in m
    ensures Concat(EncInvEntry, Entries(m, order)) == InvTable(m, order)
  {
    assert forall k :: k in order ==> k in Elems(order);
    if order != [] {
      assert order[0] in order && forall k :: k in order[1..] ==> k in order;
      assert Entries(m, order)[1..] == Entries(m, order[1..]);
      InvIsTable(m, order[1..]);
      StringIsNamed(m[order[0]]);
      SlotIsWord(order[0]);
    }
  }

  lemma {:induction false} ErasedAreMarks(order: seq<nat>)
    ensures Concat(EncSlot, order) == Marks(order)
  {
    if order != [] {
      SlotIsWord(order[0]);
      ErasedAreMarks(order[1..]);
    }
  }

  // ------------------------------------------------------------------------ the file

  lemma {:induction false} SlotsLayout(base: BaseFormat, v: Slots, o: Order)
    requires Walked(v, o)
    ensures (forall k :: k in o.ids ==> k in v.ids) && (forall k :: k in o.inv ==> k in v.inv)
    ensures EncSlots(base, v, o) ==
      base.enc(v.vectors) + Word(v.nextId)
      + (Word(|v.ids|) + IdTable(v.ids, o.ids))
      + (Word(|v.inv|) + InvTable(v.inv, o.inv))
      + (Word(|v.erased|) + Marks(o.erased))
  {
    KeysOfWalk(v.ids.Keys, o.ids);
    KeysOfWalk(v.inv.Keys, o.inv);
    KeysOfWalk(v.erased, o.erased);
    assert |v.ids| == |v.ids.Keys| && |v.inv| == |v.inv.Keys|;
    SlotIsWord(v.nextId);
    SlotIsWord(|v.ids|);
    SlotIsWord(|v.inv|);
    SlotIsWord(|v.erased|);
    IdsAreTable(v.ids, o.ids);
    InvIsTable(v.inv, o.inv);
    ErasedAreMarks(o.erased);
  }

  lemma {:induction false} Flatten<T>(t: seq<T>, a: seq<T>, b: seq<T>, c1: seq<T>, c2: seq<T>, d1: seq<T>, d2: seq<T>,
      e1: seq<T>, e2: seq<T>, f: seq<T>)
    ensures t + (a + b + (c1 + c2) + (d1 + d2) + (e1 + e2)) + f == t + a + b + c1 + c2 + d1 + d2 + e1 + e2 + f
  {
  }

  /** What is written for a segment is that file, for the orders in which the tables are walked. */
  lemma {:induction false} EncodeIsFile(base: BaseFormat, im: Image, o: Order)
    requires Walked(im.slots, o)
    ensures Encode(base, im, o) == FileOf(base, im, o)
  {
    var v := im.slots;
    TagIsLiteral(im.kind);
    SlotsLayout(base, v, o);
    SlotIsWord(im.segId);
    Flatten(EncNat(TypeTag(im.kind), TAG), base.enc(v.vectors), Word(v.nextId), Word(|v.ids|), IdTable(v.ids, o.ids),
            Word(|v.inv|), InvTable(v.inv, o.inv), Word(|v.erased|), Marks(o.erased), Word(im.segId));
  }

  /** And that file, with anything behind it, is read as the segment. */
  lemma {:induction false} FileReadsBack(base: BaseFormat, im: Image, o: Order, s: seq<byte>)
    requires Restoring(base) && Fits(im) && Walked(im.slots, o)
    ensures Decode(base, FileOf(base, im, o) + s) == Some((Some(im), s))
  {
    EncodeIsFile(base, im, o);
    DecodeEncode(base, im, o, s);
  }
}
