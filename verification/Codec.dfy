/** The bytes of a stored segment: fixed-width numbers, length-prefixed strings and counted tables. */
module Codec {
  import opened Prelude
  import opened SlotModel

  type byte = x: int | 0 <= x < 256

  /** What a reader makes of the bytes ahead: a value and the bytes after it, or too few bytes. */
  type Parsed<+T> = Option<(T, seq<byte>)>

  // ---------------------------------------------------------------------- numbers

  /** One more than the largest number of the given width in bytes. */
  function Capacity(width: nat): (c: nat)
    ensures c >= 1
  {
    if width == 0 then 1 else 256 * Capacity(width - 1)
  }

  /** A number as a machine with the low byte first keeps it. */
  function EncNat(v: nat, width: nat): (bs: seq<byte>)
    ensures |bs| == width
  {
    if width == 0 then [] else [v % 256] + EncNat(v / 256, width - 1)
  }

  function DecNat(bs: seq<byte>): nat {
    if bs == [] then 0 else bs[0] + 256 * DecNat(bs[1..])
  }

  lemma {:induction false} NatRoundTrip(v: nat, width: nat)
    requires v < Capacity(width)
    ensures DecNat(EncNat(v, width)) == v
  {
    if width > 0 {
      NatRoundTrip(v / 256, width - 1);
      assert EncNat(v, width)[1..] == EncNat(v / 256, width - 1);
    }
  }

  function ParseBytes(bs: seq<byte>, n: nat): Parsed<seq<byte>> {
    if n <= |bs| then Some((bs[..n], bs[n..])) else None
  }

  lemma {:induction false} ParseBytesBack(raw: seq<byte>, s: seq<byte>)
    ensures ParseBytes(raw + s, |raw|) == Some((raw, s))
  {
  }

  function ParseNat(bs: seq<byte>, width: nat): Parsed<nat> {
    match ParseBytes(bs, width)
    case None => None
    case Some((raw, rest)) => Some((DecNat(raw), rest))
  }

  lemma {:induction false} ParseNatBack(v: nat, width: nat, s: seq<byte>)
    requires v < Capacity(width)
    ensures ParseNat(EncNat(v, width) + s, width) == Some((v, s))
  {
    NatRoundTrip(v, width);
    assert (EncNat(v, width) + s)[..width] == EncNat(v, width);
  }

  // ---------------------------------------------------------------------- strings

  /** The width of `size_t` and of `idx_t`. */
  const WORD: nat := 8

  /** A string of single-byte characters, short enough for its length to be written. */
  ghost predicate Narrow(s: string) {
    |s| < Capacity(WORD) && forall i :: 0 <= i < |s| ==> s[i] as int < 256
  }

  function Bytes(s: string): seq<byte> {
    seq(|s|, i requires 0 <= i < |s| => s[i] as int % 256)
  }

  function Text(bs: seq<byte>): string {
    seq(|bs|, i requires 0 <= i < |bs| => bs[i] as char)
  }

  function EncString(s: string): seq<byte> {
    EncNat(|s|, WORD) + Bytes(s)
  }

  function ParseString(bs: seq<byte>): Parsed<string> {
    match ParseNat(bs, WORD)
    case None => None
    case Some((n, rest)) =>
      match ParseBytes(rest, n)
      case None => None
      case Some((raw, end)) => Some((Text(raw), end))
  }

  lemma {:induction false} TextBack(x: string)
    requires Narrow(x)
    ensures Text(Bytes(x)) == x
  {
  }

  lemma {:induction false} Regroup<T>(a: seq<T>, b: seq<T>, c: seq<T>)
    ensures a + b + c == a + (b + c)
  {
  }

  lemma {:induction false} ParseStringBack(x: string, s: seq<byte>)
    requires Narrow(x)
    ensures ParseString(EncString(x) + s) == Some((x, s))
  {
    Regroup(EncNat(|x|, WORD), Bytes(x), s);
    ParseNatBack(|x|, WORD, Bytes(x) + s);
    ParseBytesBack(Bytes(x), s);
    TextBack(x);
  }

  // ------------------------------------------------------------------------ lists

  function Concat<T>(enc: T -> seq<byte>, xs: seq<T>): seq<byte> {
    if xs == [] then [] else enc(xs[0]) + Concat(enc, xs[1..])
  }

  lemma {:induction false} ConcatSnoc<T>(enc: T -> seq<byte>, xs: seq<T>, x: T)
    ensures Concat(enc, xs + [x]) == Concat(enc, xs) + enc(x)
  {
    if xs == [] {
      assert Concat(enc, [x][1..]) == [];
    } else {
      ConcatSnoc(enc, xs[1..], x);
      assert (xs + [x])[1..] == xs[1..] + [x];
    }
  }

  /** Read n entries one after another. */
  function ParseMany<T>(parse: seq<byte> -> Parsed<T>, n: nat, bs: seq<byte>): Parsed<seq<T>> {
    if n == 0 then Some(([], bs)) else
      match parse(bs)
      case None => None
      case Some((x, rest)) => Prepend([x], ParseMany(parse, n - 1, rest))
  }

  function Prepend<T>(xs: seq<T>, more: Parsed<seq<T>>): Parsed<seq<T>> {
    match more
    case None => None
    case Some((ys, end)) => Some((xs + ys, end))
  }

  ghost predicate ReadsBack<T(!new)>(enc: T -> seq<byte>, parse: seq<byte> -> Parsed<T>, x: T) {
    forall s :: parse(enc(x) + s) == Some((x, s))
  }

  lemma {:induction false} ParseManyBack<T(!new)>(enc: T -> seq<byte>, parse: seq<byte> -> Parsed<T>, xs: seq<T>,
      s: seq<byte>)
    requires forall i :: 0 <= i < |xs| ==> ReadsBack(enc, parse, xs[i])
    ensures ParseMany(parse, |xs|, Concat(enc, xs) + s) == Some((xs, s))
  {
    if xs == [] {
      assert Concat(enc, xs) + s == s;
    } else {
      assert Concat(enc, xs) + s == enc(xs[0]) + (Concat(enc, xs[1..]) + s);
      assert ReadsBack(enc, parse, xs[0]);
      forall i | 0 <= i < |xs[1..]| ensures ReadsBack(enc, parse, xs[1..][i]) {
        assert ReadsBack(enc, parse, xs[i + 1]);
      }
      ParseManyBack(enc, parse, xs[1..], s);
      assert xs == [xs[0]] + xs[1..];
    }
  }

  /** A list written after its length. */
  function EncList<T>(enc: T -> seq<byte>, xs: seq<T>): seq<byte> {
    EncNat(|xs|, WORD) + Concat(enc, xs)
  }

  function ParseList<T>(parse: seq<byte> -> Parsed<T>, bs: seq<byte>): Parsed<seq<T>> {
    match ParseNat(bs, WORD)
    case None => None
    case Some((n, rest)) => ParseMany(parse, n, rest)
  }

  lemma {:induction false} ParseListBack<T(!new)>(enc: T -> seq<byte>, parse: seq<byte> -> Parsed<T>, xs: seq<T>,
      s: seq<byte>)
    requires |xs| < Capacity(WORD)
    requires forall i :: 0 <= i < |xs| ==> ReadsBack(enc, parse, xs[i])
    ensures ParseList(parse, EncList(enc, xs) + s) == Some((xs, s))
  {
    assert EncList(enc, xs) + s == EncNat(|xs|, WORD) + (Concat(enc, xs) + s);
    ParseNatBack(|xs|, WORD, Concat(enc, xs) + s);
    ParseManyBack(enc, parse, xs, s);
  }

  // ---------------------------------------------------------------------- entries

  function EncSlot(v: nat): seq<byte> {
    EncNat(v, WORD)
  }

  function ParseSlot(bs: seq<byte>): Parsed<nat> {
    ParseNat(bs, WORD)
  }

  /** An entry of `ids_`: the id, then its slot. */
  function EncIdEntry(e: (DocId, nat)): seq<byte> {
    EncString(e.0) + EncSlot(e.1)
  }

  function ParseIdEntry(bs: seq<byte>): Parsed<(DocId, nat)> {
    match ParseString(bs)
    case None => None
    case Some((k, rest)) =>
      match ParseSlot(rest)
      case None => None
      case Some((v, end)) => Some(((k, v), end))
  }

  /** An entry of `inv_ids_`: the slot, then its id. */
  function EncInvEntry(e: (nat, DocId)): seq<byte> {
    EncSlot(e.0) + EncString(e.1)
  }

  function ParseInvEntry(bs: seq<byte>): Parsed<(nat, DocId)> {
    match ParseSlot(bs)
    case None => None
    case Some((k, rest)) =>
      match ParseString(rest)
      case None => None
      case Some((v, end)) => Some(((k, v), end))
  }

  lemma {:induction false} SlotReadsBack(v: nat)
    requires v < Capacity(WORD)
    ensures ReadsBack(EncSlot, ParseSlot, v)
  {
    forall s ensures ParseSlot(EncSlot(v) + s) == Some((v, s)) {
      ParseNatBack(v, WORD, s);
    }
  }

  lemma {:induction false} IdEntryReadsBack(e: (DocId, nat))
    requires Narrow(e.0) && e.1 < Capacity(WORD)
    ensures ReadsBack(EncIdEntry, ParseIdEntry, e)
  {
    forall s ensures ParseIdEntry(EncIdEntry(e) + s) == Some((e, s)) {
      Regroup(EncString(e.0), EncSlot(e.1), s);
      ParseStringBack(e.0, EncSlot(e.1) + s);
      ParseNatBack(e.1, WORD, s);
    }
  }

  lemma {:induction false} InvEntryReadsBack(e: (nat, DocId))
    requires e.0 < Capacity(WORD) && Narrow(e.1)
    ensures ReadsBack(EncInvEntry, ParseInvEntry, e)
  {
    forall s ensures ParseInvEntry(EncInvEntry(e) + s) == Some((e, s)) {
      Regroup(EncSlot(e.0), EncString(e.1), s);
      ParseNatBack(e.0, WORD, EncString(e.1) + s);
      ParseStringBack(e.1, s);
    }
  }

  // ----------------------------------------------------------------------- tables

  /** Some order of the keys, as a walk over a hash table gives one. */
  ghost predicate Walk<K>(keys: set<K>, order: seq<K>) {
    Distinct(order) && Elems(order) == keys
  }

  ghost function Entries<K(!new), V>(m: map<K, V>, order: seq<K>): seq<(K, V)>
    requires Elems(order) <= m.Keys
  {
    seq(|order|, i requires 0 <= i < |order| => assert order[i] in Elems(order); (order[i], m[order[i]]))
  }

  /** The table after inserting the entries one by one. */
  function FromEntries<K(==), V>(es: seq<(K, V)>): map<K, V> {
    if es == [] then map[] else FromEntries(es[..|es| - 1])[es[|es| - 1].0 := es[|es| - 1].1]
  }

  function FromKeys<K(==)>(ks: seq<K>): set<K> {
    if ks == [] then {} else FromKeys(ks[..|ks| - 1]) + {ks[|ks| - 1]}
  }

  lemma {:induction false} EntriesRestore<K(!new), V>(m: map<K, V>, order: seq<K>)
    requires Elems(order) <= m.Keys
    ensures FromEntries(Entries(m, order)) == map k | k in Elems(order) :: m[k]
  {
    if order != [] {
      var n := |order| - 1;
      assert Elems(order) == Elems(order[..n]) + {order[n]};
      EntriesRestore(m, order[..n]);
      assert Entries(m, order)[..n] == Entries(m, order[..n]);
    }
  }

  lemma {:induction false} WalkRestores<K(!new), V>(m: map<K, V>, order: seq<K>)
    requires Walk(m.Keys, order)
    ensures FromEntries(Entries(m, order)) == m && |order| == |m|
  {
    DistinctCount(order);
    assert |m| == |m.Keys|;
    EntriesRestore(m, order);
    assert (map k | k in Elems(order) :: m[k]) == m;
  }

  lemma {:induction false} KeysRestore<K>(ks: seq<K>)
    ensures FromKeys(ks) == Elems(ks)
  {
    if ks != [] {
      var n := |ks| - 1;
      KeysRestore(ks[..n]);
      assert Elems(ks) == Elems(ks[..n]) + {ks[n]};
    }
  }

  // --------------------------------------------------------------------- segments

  datatype SegmentType = FaissFlat | FaissHNSW

  /** The width of the `int` that holds the segment type. */
  const TAG: nat := 4

  function TypeTag(kind: SegmentType): nat {
    match kind
    case FaissFlat => 0
    case FaissHNSW => 1
  }

  /** The library's own format for the vectors: any that reads back what it wrote, whatever follows. */
  datatype BaseFormat = BaseFormat(enc: seq<Vector> -> seq<byte>, parse: seq<byte> -> Parsed<seq<Vector>>)

  ghost predicate Restoring(base: BaseFormat) {
    forall vs :: ReadsBack(base.enc, base.parse, vs)
  }

  /** What is stored of a segment. */
  datatype Image = Image(kind: SegmentType, slots: Slots, segId: SegId)

  /** The orders in which the three hash tables happen to be walked. */
  datatype Order = Order(ids: seq<DocId>, inv: seq<nat>, erased: seq<nat>)

  ghost predicate Walked(v: Slots, o: Order) {
    Walk(v.ids.Keys, o.ids) && Walk(v.inv.Keys, o.inv) && Walk(v.erased, o.erased)
  }

  ghost function EncSlots(base: BaseFormat, v: Slots, o: Order): seq<byte>
    requires Walked(v, o)
  {
    base.enc(v.vectors) + EncSlot(v.nextId)
    + EncList(EncIdEntry, Entries(v.ids, o.ids))
    + EncList(EncInvEntry, Entries(v.inv, o.inv))
    + EncList(EncSlot, o.erased)
  }

  ghost function Encode(base: BaseFormat, im: Image, o: Order): seq<byte>
    requires Walked(im.slots, o)
  {
    EncNat(TypeTag(im.kind), TAG) + EncSlots(base, im.slots, o) + EncSlot(im.segId)
  }

  function ParseIds(bs: seq<byte>): Parsed<map<DocId, nat>> {
    match ParseList(ParseIdEntry, bs)
    case None => None
    case Some((es, rest)) => Some((FromEntries(es), rest))
  }

  function ParseInv(bs: seq<byte>): Parsed<map<nat, DocId>> {
    match ParseList(ParseInvEntry, bs)
    case None => None
    case Some((es, rest)) => Some((FromEntries(es), rest))
  }

  function ParseErased(bs: seq<byte>): Parsed<set<nat>> {
    match ParseList(ParseSlot, bs)
    case None => None
    case Some((ks, rest)) => Some((FromKeys(ks), rest))
  }

  function ParseTables(vectors: seq<Vector>, bs: seq<byte>): Parsed<Slots> {
    match ParseSlot(bs)
    case None => None
    case Some((nextId, r1)) =>
      match ParseIds(r1)
      case None => None
      case Some((ids, r2)) =>
        match ParseInv(r2)
        case None => None
        case Some((inv, r3)) =>
          match ParseErased(r3)
          case None => None
          case Some((erased, r4)) => Some((Slots(vectors, nextId, ids, inv, erased), r4))
  }

  function ParseSlots(base: BaseFormat, bs: seq<byte>): Parsed<Slots> {
    match base.parse(bs)
    case None => None
    case Some((vectors, rest)) => ParseTables(vectors, rest)
  }

  function ParseBody(base: BaseFormat, kind: SegmentType, bs: seq<byte>): Parsed<Option<Image>> {
    match ParseSlots(base, bs)
    case None => None
    case Some((v, rest)) =>
      match ParseSlot(rest)
      case None => None
      case Some((id, end)) => Some((Some(Image(kind, v, id)), end))
  }

  /** No segment for an unknown type; only the type is consumed then. */
  function Decode(base: BaseFormat, bs: seq<byte>): Parsed<Option<Image>> {
    match ParseNat(bs, TAG)
    case None => None
    case Some((tag, rest)) =>
      if tag == 0 then ParseBody(base, FaissFlat, rest)
      else if tag == 1 then ParseBody(base, FaissHNSW, rest)
      else Some((None, rest))
  }

  // ------------------------------------------------------------------- round trip

  /** Every number fits its field and every id is made of bytes. */
  ghost predicate Fits(im: Image) {
    && im.slots.nextId < Capacity(WORD) && im.segId < Capacity(WORD)
    && |im.slots.ids| < Capacity(WORD) && |im.slots.inv| < Capacity(WORD) && |im.slots.erased| < Capacity(WORD)
    && (forall k :: k in im.slots.ids ==> Narrow(k) && im.slots.ids[k] < Capacity(WORD))
    && (forall k :: k in im.slots.inv ==> k < Capacity(WORD) && Narrow(im.slots.inv[k]))
    && (forall k :: k in im.slots.erased ==> k < Capacity(WORD))
  }

  lemma {:induction false} IdsBack(m: map<DocId, nat>, order: seq<DocId>, s: seq<byte>)
    requires Walk(m.Keys, order) && |m| < Capacity(WORD)
    requires forall k :: k in m ==> Narrow(k) && m[k] < Capacity(WORD)
    ensures ParseIds(EncList(EncIdEntry, Entries(m, order)) + s) == Some((m, s))
  {
    WalkRestores(m, order);
    var es := Entries(m, order);
    forall i | 0 <= i < |es| ensures ReadsBack(EncIdEntry, ParseIdEntry, es[i]) {
      assert order[i] in Elems(order);
      IdEntryReadsBack(es[i]);
    }
    ParseListBack(EncIdEntry, ParseIdEntry, es, s);
  }

  lemma {:induction false} InvBack(m: map<nat, DocId>, order: seq<nat>, s: seq<byte>)
    requires Walk(m.Keys, order) && |m| < Capacity(WORD)
    requires forall k :: k in m ==> k < Capacity(WORD) && Narrow(m[k])
    ensures ParseInv(EncList(EncInvEntry, Entries(m, order)) + s) == Some((m, s))
  {
    WalkRestores(m, order);
    var es := Entries(m, order);
    forall i | 0 <= i < |es| ensures ReadsBack(EncInvEntry, ParseInvEntry, es[i]) {
      assert order[i] in Elems(order);
      InvEntryReadsBack(es[i]);
    }
    ParseListBack(EncInvEntry, ParseInvEntry, es, s);
  }

  lemma {:induction false} ErasedBack(ks: set<nat>, order: seq<nat>, s: seq<byte>)
    requires Walk(ks, order) && |ks| < Capacity(WORD)
    requires forall k :: k in ks ==> k < Capacity(WORD)
    ensures ParseErased(EncList(EncSlot, order) + s) == Some((ks, s))
  {
    DistinctCount(order);
    forall i | 0 <= i < |order| ensures ReadsBack(EncSlot, ParseSlot, order[i]) {
      assert order[i] in Elems(order);
      SlotReadsBack(order[i]);
    }
    ParseListBack(EncSlot, ParseSlot, order, s);
    KeysRestore(order);
  }

  lemma {:induction false} Regroup3<T>(a: seq<T>, b: seq<T>, c: seq<T>, s: seq<T>)
    ensures a + b + c + s == a + (b + (c + s))
  {
  }

  lemma {:induction false} Regroup5<T>(a: seq<T>, b: seq<T>, c: seq<T>, d: seq<T>, e: seq<T>, s: seq<T>)
    ensures a + b + c + d + e + s == a + (b + (c + (d + (e + s))))
  {
    Regroup3(a + b, c, d, e + s);
    Regroup3(a, b, c, d + (e + s));
  }

  /** The five parts of the slots, each read back with the rest of the bytes behind it. */
  lemma {:induction false} TablesParse(base: BaseFormat, v: Slots, r0: seq<byte>, r1: seq<byte>, r2: seq<byte>,
      r3: seq<byte>, r4: seq<byte>, r5: seq<byte>)
    requires base.parse(r0) == Some((v.vectors, r1))
    requires ParseSlot(r1) == Some((v.nextId, r2))
    requires ParseIds(r2) == Some((v.ids, r3))
    requires ParseInv(r3) == Some((v.inv, r4))
    requires ParseErased(r4) == Some((v.erased, r5))
    ensures ParseSlots(base, r0) == Some((v, r5))
  {
  }

  lemma {:induction false} SlotsBack(base: BaseFormat, im: Image, o: Order, s: seq<byte>)
    requires Restoring(base) && Fits(im) && Walked(im.slots, o)
    ensures ParseSlots(base, EncSlots(base, im.slots, o) + s) == Some((im.slots, s))
  {
    var v := im.slots;
    var vectors, nextId := base.enc(v.vectors), EncSlot(v.nextId);
    var ids, inv := EncList(EncIdEntry, Entries(v.ids, o.ids)), EncList(EncInvEntry, Entries(v.inv, o.inv));
    var erased := EncList(EncSlot, o.erased);
    Regroup5(vectors, nextId, ids, inv, erased, s);
    var r4 := erased + s;
    var r3 := inv + r4;
    var r2 := ids + r3;
    var r1 := nextId + r2;
    assert base.parse(vectors + r1) == Some((v.vectors, r1)) by {
      assert ReadsBack(base.enc, base.parse, v.vectors);
    }
    assert ParseSlot(r1) == Some((v.nextId, r2)) by { ParseNatBack(v.nextId, WORD, r2); }
    IdsBack(v.ids, o.ids, r3);
    InvBack(v.inv, o.inv, r4);
    ErasedBack(v.erased, o.erased, s);
    TablesParse(base, v, vectors + r1, r1, r2, r3, r4, s);
  }

  lemma {:induction false} PartsParse(base: BaseFormat, im: Image, r0: seq<byte>, r1: seq<byte>, r2: seq<byte>,
      r3: seq<byte>)
    requires ParseNat(r0, TAG) == Some((TypeTag(im.kind), r1))
    requires ParseSlots(base, r1) == Some((im.slots, r2))
    requires ParseSlot(r2) == Some((im.segId, r3))
    ensures Decode(base, r0) == Some((Some(im), r3))
  {
    assert ParseBody(base, im.kind, r1) == Some((Some(im), r3));
  }

  /** Reading a stored segment gives it back and stops right behind it, whatever the tables' orders were. */
  lemma {:induction false} DecodeEncode(base: BaseFormat, im: Image, o: Order, s: seq<byte>)
    requires Restoring(base) && Fits(im) && Walked(im.slots, o)
    ensures Decode(base, Encode(base, im, o) + s) == Some((Some(im), s))
  {
    var tag, slots, id := EncNat(TypeTag(im.kind), TAG), EncSlots(base, im.slots, o), EncSlot(im.segId);
    Regroup3(tag, slots, id, s);
    var r2 := id + s;
    var r1 := slots + r2;
    assert ParseNat(tag + r1, TAG) == Some((TypeTag(im.kind), r1)) by {
      assert TypeTag(im.kind) < Capacity(TAG);
      ParseNatBack(TypeTag(im.kind), TAG, r1);
    }
    SlotsBack(base, im, o, r2);
    assert ParseSlot(r2) == Some((im.segId, s)) by { ParseNatBack(im.segId, WORD, s); }
    PartsParse(base, im, tag + r1, r1, r2, s);
  }

  /** No stored segment begins another: where two byte strings agree, so do the segments and what follows. */
  lemma {:induction false} EncodePrefixFree(base: BaseFormat, im: Image, o: Order, s: seq<byte>, im': Image,
      o': Order, s': seq<byte>)
    requires Restoring(base) && Fits(im) && Fits(im') && Walked(im.slots, o) && Walked(im'.slots, o')
    requires Encode(base, im, o) + s == Encode(base, im', o') + s'
    ensures im == im' && s == s'
  {
    DecodeEncode(base, im, o, s);
    DecodeEncode(base, im', o', s');
  }

  /** Any other type yields no segment. */
  lemma {:induction false} UnknownType(base: BaseFormat, tag: nat, s: seq<byte>)
    requires 2 <= tag < Capacity(TAG)
    ensures Decode(base, EncNat(tag, TAG) + s) == Some((None, s))
  {
    ParseNatBack(tag, TAG, s);
  }
}
