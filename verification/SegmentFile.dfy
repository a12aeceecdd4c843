/** Segments written to and read from a file, step by step. */
module SegmentFile {
  import opened Codec
  import opened FileLayout
  import opened Prelude
  import opened Faiss
  import opened Segments

  /** An open file: writes go to its end, reads go on from the position. */
  class File {
    var data: seq<byte>
    var pos: nat

    ghost predicate Valid()
      reads this
    {
      pos <= |data|
    }

    /** The bytes not read yet. */
    ghost function Rest(): seq<byte>
      requires Valid()
      reads this
    {
      data[pos..]
    }

    constructor (content: seq<byte>)
      ensures Valid() && data == content && Rest() == content
    {
      data, pos := content, 0;
    }

    method Write(bs: seq<byte>)
      modifies this`data
      ensures data == old(data) + bs
    {
      data := data + bs;
    }

    method Read(n: nat) returns (r: Option<seq<byte>>)
      requires Valid()
      modifies this`pos
      ensures Valid() && Follows(ParseBytes(old(Rest()), n), r, Rest())
    {
      if pos + n <= |data| {
        r := Some(data[pos..pos + n]);
        assert data[pos..][..n] == data[pos..pos + n] && data[pos..][n..] == data[pos + n..];
        pos := pos + n;
      } else {
        r := None;
      }
    }

    /** `writeBinary` of a number. */
    method WriteNat(v: nat, width: nat)
      modifies this`data
      ensures data == old(data) + EncNat(v, width)
    {
      Write(EncNat(v, width));
    }

    /** `writeBinary` of a string. */
    method WriteString(s: string)
      modifies this`data
      ensures data == old(data) + EncString(s)
      ensures data == old(data) + LengthThenChars(s)
    {
      StringIsNamed(s);
      WriteNat(|s|, WORD);
      Write(Bytes(s));
    }

    /** `readBinary` of a number. */
    method ReadNat(width: nat) returns (r: Option<nat>)
      requires Valid()
      modifies this`pos
      ensures Valid() && Follows(ParseNat(old(Rest()), width), r, Rest())
    {
      var raw := Read(width);
      r := if raw.None? then None else Some(DecNat(raw.value));
    }

    /** `readBinary` of a string. */
    method ReadString() returns (r: Option<string>)
      requires Valid()
      modifies this`pos
      ensures Valid() && Follows(ParseString(old(Rest())), r, Rest())
    {
      var n := ReadNat(WORD);
      if n.None? {
        return None;
      }
      var raw := Read(n.value);
      r := if raw.None? then None else Some(Text(raw.value));
    }
  }

  /** A read returned what the parse of the bytes ahead gives, and stopped where the parse stopped. */
  ghost predicate Follows<T>(parsed: Parsed<T>, r: Option<T>, rest: seq<byte>) {
    match parsed
    case None => r.None?
    case Some((x, end)) => r == Some(x) && rest == end
  }

  // ---------------------------------------------------------------------- writing

  /** The keys written so far and those left. */
  ghost predicate Walking<K>(keys: set<K>, order: seq<K>, left: set<K>) {
    Distinct(order) && Elems(order) !! left && Elems(order) + left == keys
  }

  lemma {:induction false} WalkNext<K>(keys: set<K>, order: seq<K>, left: set<K>, k: K)
    requires Walking(keys, order, left) && k in left
    ensures Walking(keys, order + [k], left - {k})
  {
    assert Elems(order + [k]) == Elems(order) + {k};
  }

  lemma {:induction false} WalkEnds<K>(keys: set<K>, order: seq<K>)
    requires Walking(keys, order, {})
    ensures Walk(keys, order) && |order| == |keys|
  {
    DistinctCount(order);
  }

  ghost predicate WrittenList<T>(data: seq<byte>, start: seq<byte>, enc: T -> seq<byte>, xs: seq<T>) {
    data == start + Concat(enc, xs)
  }

  lemma {:induction false} WrittenNext<T>(data: seq<byte>, start: seq<byte>, enc: T -> seq<byte>, xs: seq<T>, x: T)
    requires WrittenList(data, start, enc, xs)
    ensures WrittenList(data + enc(x), start, enc, xs + [x])
  {
    ConcatSnoc(enc, xs, x);
    Regroup(start, Concat(enc, xs), enc(x));
  }

  lemma {:induction false} EntriesNext<K(!new), V>(m: map<K, V>, order: seq<K>, left: set<K>, k: K)
    requires Walking(m.Keys, order, left) && k in left
    ensures Elems(order + [k]) <= m.Keys
    ensures Entries(m, order + [k]) == Entries(m, order) + [(k, m[k])]
  {
    assert Elems(order + [k]) == Elems(order) + {k};
  }

  method WriteIdEntry(fd: File, k: DocId, v: nat)
    modifies fd`data
    ensures fd.data == old(fd.data) + EncIdEntry((k, v))
  {
    fd.WriteString(k);
    fd.WriteNat(v, WORD);
    Regroup(old(fd.data), EncString(k), EncSlot(v));
  }

  method WriteInvEntry(fd: File, k: nat, v: DocId)
    modifies fd`data
    ensures fd.data == old(fd.data) + EncInvEntry((k, v))
  {
    fd.WriteNat(k, WORD);
    fd.WriteString(v);
    Regroup(old(fd.data), EncSlot(k), EncString(v));
  }

  method WriteIds(fd: File, ids: map<DocId, nat>) returns (ghost order: seq<DocId>)
    modifies fd`data
    ensures Walk(ids.Keys, order)
    ensures fd.data == old(fd.data) + EncList(EncIdEntry, Entries(ids, order))
  {
    fd.WriteNat(|ids.Keys|, WORD);
    ghost var start := fd.data;
    order := [];
    var left := ids.Keys;
    while left != {}
      invariant Walking(ids.Keys, order, left)
      invariant WrittenList(fd.data, start, EncIdEntry, Entries(ids, order))
      decreases |left|
    {
      var k :| k in left;
      EntriesNext(ids, order, left, k);
      WrittenNext(fd.data, start, EncIdEntry, Entries(ids, order), (k, ids[k]));
      WalkNext(ids.Keys, order, left, k);
      WriteIdEntry(fd, k, ids[k]);
      order, left := order + [k], left - {k};
    }
    WalkEnds(ids.Keys, order);
    Regroup(old(fd.data), EncNat(|order|, WORD), Concat(EncIdEntry, Entries(ids, order)));
  }

  method WriteInv(fd: File, inv: map<nat, DocId>) returns (ghost order: seq<nat>)
    modifies fd`data
    ensures Walk(inv.Keys, order)
    ensures fd.data == old(fd.data) + EncList(EncInvEntry, Entries(inv, order))
  {
    fd.WriteNat(|inv.Keys|, WORD);
    ghost var start := fd.data;
    order := [];
    var left := inv.Keys;
    while left != {}
      invariant Walking(inv.Keys, order, left)
      invariant WrittenList(fd.data, start, EncInvEntry, Entries(inv, order))
      decreases |left|
    {
      var k :| k in left;
      EntriesNext(inv, order, left, k);
      WrittenNext(fd.data, start, EncInvEntry, Entries(inv, order), (k, inv[k]));
      WalkNext(inv.Keys, order, left, k);
      WriteInvEntry(fd, k, inv[k]);
      order, left := order + [k], left - {k};
    }
    WalkEnds(inv.Keys, order);
    Regroup(old(fd.data), EncNat(|order|, WORD), Concat(EncInvEntry, Entries(inv, order)));
  }

  method WriteErased(fd: File, erased: set<nat>) returns (ghost order: seq<nat>)
    modifies fd`data
    ensures Walk(erased, order)
    ensures fd.data == old(fd.data) + EncList(EncSlot, order)
  {
    fd.WriteNat(|erased|, WORD);
    ghost var start := fd.data;
    order := [];
    var left := erased;
    while left != {}
      invariant Walking(erased, order, left)
      invariant WrittenList(fd.data, start, EncSlot, order)
      decreases |left|
    {
      var k :| k in left;
      WrittenNext(fd.data, start, EncSlot, order, k);
      WalkNext(erased, order, left, k);
      fd.WriteNat(k, WORD);
      order, left := order + [k], left - {k};
    }
    WalkEnds(erased, order);
    Regroup(old(fd.data), EncNat(|order|, WORD), Concat(EncSlot, order));
  }

  /** `serialize_index` */
  method SerializeIndex(base: BaseFormat, index: FaissIndex, fd: File) returns (ghost o: Order)
    modifies fd`data
    ensures Walked(index.Value(), o)
    ensures fd.data == old(fd.data) + EncSlots(base, index.Value(), o)
  {
    fd.Write(base.enc(index.vectors));
    fd.WriteNat(index.nextId, WORD);
    ghost var ids := WriteIds(fd, index.ids);
    ghost var inv := WriteInv(fd, index.inv);
    ghost var erased := WriteErased(fd, index.erased);
    o := Order(ids, inv, erased);
    Append5(old(fd.data), base.enc(index.vectors), EncSlot(index.nextId), EncList(EncIdEntry, Entries(index.ids, ids)),
            EncList(EncInvEntry, Entries(index.inv, inv)), EncList(EncSlot, erased));
  }

  lemma {:induction false} Append5<T>(s: seq<T>, a: seq<T>, b: seq<T>, c: seq<T>, d: seq<T>, e: seq<T>)
    ensures s + a + b + c + d + e == s + (a + b + c + d + e)
  {
  }

  /** `SerializeSegment` */
  method SerializeSegment(base: BaseFormat, kind: SegmentType, seg: Segment, fd: File) returns (ghost o: Order)
    modifies fd`data
    ensures Walked(seg.index.Value(), o)
    ensures fd.data == old(fd.data) + Encode(base, Image(kind, seg.index.Value(), seg.segId), o)
    ensures fd.data == old(fd.data) + FileOf(base, Image(kind, seg.index.Value(), seg.segId), o)
  {
    fd.WriteNat(TypeTag(kind), TAG);
    o := SerializeIndex(base, seg.index, fd);
    fd.WriteNat(seg.segId, WORD);
    EncodeIsFile(base, Image(kind, seg.index.Value(), seg.segId), o);
    Append3(old(fd.data), EncNat(TypeTag(kind), TAG), EncSlots(base, seg.index.Value(), o), EncSlot(seg.segId));
  }

  lemma {:induction false} Append3<T>(s: seq<T>, a: seq<T>, b: seq<T>, c: seq<T>)
    ensures s + a + b + c == s + (a + b + c)
  {
  }

  // ---------------------------------------------------------------------- reading

  /** After i entries, what the whole list gives is the entries read and what the rest gives. */
  ghost predicate Reading<T>(parse: seq<byte> -> Parsed<T>, n: nat, start: seq<byte>, i: nat, done: seq<T>,
      rest: seq<byte>)
    requires i <= n
  {
    ParseMany(parse, n, start) == Prepend(done, ParseMany(parse, n - i, rest))
  }

  lemma {:induction false} ReadingStarts<T>(parse: seq<byte> -> Parsed<T>, n: nat, start: seq<byte>)
    ensures Reading(parse, n, start, 0, [], start)
  {
    var all := ParseMany(parse, n, start);
    if all.Some? {
      assert [] + all.value.0 == all.value.0;
    }
  }

  lemma {:induction false} ReadingNext<T>(parse: seq<byte> -> Parsed<T>, n: nat, start: seq<byte>, i: nat,
      done: seq<T>, rest: seq<byte>)
    requires i < n && Reading(parse, n, start, i, done, rest)
    ensures parse(rest).None? ==> ParseMany(parse, n, start) == None
    ensures parse(rest).Some? ==> Reading(parse, n, start, i + 1, done + [parse(rest).value.0], parse(rest).value.1)
  {
    if parse(rest).Some? {
      var x := parse(rest).value.0;
      var more := ParseMany(parse, n - i - 1, parse(rest).value.1);
      if more.Some? {
        Regroup(done, [x], more.value.0);
      }
    }
  }

  lemma {:induction false} ReadingEnds<T>(parse: seq<byte> -> Parsed<T>, n: nat, start: seq<byte>, done: seq<T>,
      rest: seq<byte>)
    requires Reading(parse, n, start, n, done, rest)
    ensures ParseMany(parse, n, start) == Some((done, rest))
  {
    assert done + [] == done;
  }

  method ReadIdEntry(fd: File) returns (r: Option<(DocId, nat)>)
    requires fd.Valid()
    modifies fd`pos
    ensures fd.Valid() && Follows(ParseIdEntry(old(fd.Rest())), r, fd.Rest())
  {
    var k := fd.ReadString();
    if k.None? {
      return None;
    }
    var v := fd.ReadNat(WORD);
    r := if v.None? then None else Some((k.value, v.value));
  }

  method ReadInvEntry(fd: File) returns (r: Option<(nat, DocId)>)
    requires fd.Valid()
    modifies fd`pos
    ensures fd.Valid() && Follows(ParseInvEntry(old(fd.Rest())), r, fd.Rest())
  {
    var k := fd.ReadNat(WORD);
    if k.None? {
      return None;
    }
    var v := fd.ReadString();
    r := if v.None? then None else Some((k.value, v.value));
  }

  method ReadIds(fd: File) returns (r: Option<map<DocId, nat>>)
    requires fd.Valid()
    modifies fd`pos
    ensures fd.Valid() && Follows(ParseIds(old(fd.Rest())), r, fd.Rest())
  {
    var n := fd.ReadNat(WORD);
    if n.None? {
      return None;
    }
    ghost var start, done := fd.Rest(), [];
    var table := map[];
    ReadingStarts(ParseIdEntry, n.value, start);
    var i := 0;
    while i < n.value
      invariant 0 <= i <= n.value && fd.Valid()
      invariant table == FromEntries(done)
      invariant Reading(ParseIdEntry, n.value, start, i, done, fd.Rest())
    {
      ReadingNext(ParseIdEntry, n.value, start, i, done, fd.Rest());
      var e := ReadIdEntry(fd);
      if e.None? {
        return None;
      }
      table := table[e.value.0 := e.value.1];
      done := done + [e.value];
      i := i + 1;
    }
    ReadingEnds(ParseIdEntry, n.value, start, done, fd.Rest());
    r := Some(table);
  }

  method ReadInv(fd: File) returns (r: Option<map<nat, DocId>>)
    requires fd.Valid()
    modifies fd`pos
    ensures fd.Valid() && Follows(ParseInv(old(fd.Rest())), r, fd.Rest())
  {
    var n := fd.ReadNat(WORD);
    if n.None? {
      return None;
    }
    ghost var start, done := fd.Rest(), [];
    var table := map[];
    ReadingStarts(ParseInvEntry, n.value, start);
    var i := 0;
    while i < n.value
      invariant 0 <= i <= n.value && fd.Valid()
      invariant table == FromEntries(done)
      invariant Reading(ParseInvEntry, n.value, start, i, done, fd.Rest())
    {
      ReadingNext(ParseInvEntry, n.value, start, i, done, fd.Rest());
      var e := ReadInvEntry(fd);
      if e.None? {
        return None;
      }
      table := table[e.value.0 := e.value.1];
      done := done + [e.value];
      i := i + 1;
    }
    ReadingEnds(ParseInvEntry, n.value, start, done, fd.Rest());
    r := Some(table);
  }

  method ReadErased(fd: File) returns (r: Option<set<nat>>)
    requires fd.Valid()
    modifies fd`pos
    ensures fd.Valid() && Follows(ParseErased(old(fd.Rest())), r, fd.Rest())
  {
    var n := fd.ReadNat(WORD);
    if n.None? {
      return None;
    }
    ghost var start, done := fd.Rest(), [];
    var table := {};
    ReadingStarts(ParseSlot, n.value, start);
    var i := 0;
    while i < n.value
      invariant 0 <= i <= n.value && fd.Valid()
      invariant table == FromKeys(done)
      invariant Reading(ParseSlot, n.value, start, i, done, fd.Rest())
    {
      ReadingNext(ParseSlot, n.value, start, i, done, fd.Rest());
      var e := fd.ReadNat(WORD);
      if e.None? {
        return None;
      }
      table := table + {e.value};
      done := done + [e.value];
      i := i + 1;
    }
    ReadingEnds(ParseSlot, n.value, start, done, fd.Rest());
    r := Some(table);
  }

  ghost predicate Tail(end: seq<byte>, bs: seq<byte>) {
    |end| <= |bs| && end == bs[|bs| - |end|..]
  }

  /** A reader of the library's format leaves a tail of the bytes it was given. */
  ghost predicate Consumes(base: BaseFormat) {
    forall bs :: base.parse(bs).Some? ==> Tail(base.parse(bs).value.1, bs)
  }

  /** The library's reader, taken as one step. */
  method ReadVectors(base: BaseFormat, fd: File) returns (r: Option<seq<Vector>>)
    requires fd.Valid() && Consumes(base)
    modifies fd`pos
    ensures fd.Valid() && Follows(base.parse(old(fd.Rest())), r, fd.Rest())
  {
    var parsed := base.parse(fd.data[fd.pos..]);
    if parsed.None? {
      return None;
    }
    var end := parsed.value.1;
    assert Tail(end, fd.data[fd.pos..]);
    fd.pos := |fd.data| - |end|;
    r := Some(parsed.value.0);
  }

  method ReadTables(vectors: seq<Vector>, fd: File) returns (r: Option<FaissIndex>)
    requires fd.Valid()
    modifies fd`pos
    ensures fd.Valid() && (r.Some? ==> fresh(r.value))
    ensures Follows(ParseTables(vectors, old(fd.Rest())), if r.None? then None else Some(r.value.Value()), fd.Rest())
  {
    var nextId := fd.ReadNat(WORD);
    if nextId.None? {
      return None;
    }
    var ids := ReadIds(fd);
    if ids.None? {
      return None;
    }
    var inv := ReadInv(fd);
    if inv.None? {
      return None;
    }
    var erased := ReadErased(fd);
    if erased.None? {
      return None;
    }
    var index := new FaissIndex();
    index.vectors, index.nextId := vectors, nextId.value;
    index.ids, index.inv, index.erased := ids.value, inv.value, erased.value;
    r := Some(index);
  }

  /** The constructor of `FaissIndex` that reads a file. */
  method ReadIndex(base: BaseFormat, fd: File) returns (r: Option<FaissIndex>)
    requires fd.Valid() && Consumes(base)
    modifies fd`pos
    ensures fd.Valid() && (r.Some? ==> fresh(r.value))
    ensures Follows(ParseSlots(base, old(fd.Rest())), if r.None? then None else Some(r.value.Value()), fd.Rest())
  {
    var vectors := ReadVectors(base, fd);
    if vectors.None? {
      return None;
    }
    r := ReadTables(vectors.value, fd);
  }

  /** The constructor of `Segment` that reads a file. */
  method ReadSegment(base: BaseFormat, fd: File) returns (r: Option<Segment>)
    requires fd.Valid() && Consumes(base)
    modifies fd`pos
    ensures fd.Valid() && (r.Some? ==> fresh(r.value) && fresh(r.value.index))
    ensures forall kind :: Follows(ParseBody(base, kind, old(fd.Rest())),
      if r.None? then None else Some(ImageOf(kind, r.value)), fd.Rest())
  {
    var index := ReadIndex(base, fd);
    if index.None? {
      return None;
    }
    var id := fd.ReadNat(WORD);
    if id.None? {
      return None;
    }
    var seg := new Segment.Around(index.value, id.value);
    r := Some(seg);
  }

  ghost function ImageOf(kind: SegmentType, seg: Segment): Option<Image>
    reads seg, seg.index
  {
    Some(Image(kind, seg.index.Value(), seg.segId))
  }

  /** What `DeserealizeSegment` hands back: too few bytes, no segment for an unknown type, or a segment of a type. */
  datatype Loaded = Short | Unknown | Loaded(kind: SegmentType, seg: Segment)

  ghost function Outcome(l: Loaded): Option<Option<Image>>
    reads if l.Loaded? then {l.seg, l.seg.index} else {}
  {
    match l
    case Short => None
    case Unknown => Some(None)
    case Loaded(kind, seg) => Some(ImageOf(kind, seg))
  }

  /** `DeserealizeSegment` */
  method DeserializeSegment(base: BaseFormat, fd: File) returns (r: Loaded)
    requires fd.Valid() && Consumes(base)
    modifies fd`pos
    ensures fd.Valid() && (r.Loaded? ==> fresh(r.seg) && fresh(r.seg.index))
    ensures Follows(Decode(base, old(fd.Rest())), Outcome(r), fd.Rest())
  {
    var tag := fd.ReadNat(TAG);
    if tag.None? {
      return Short;
    }
    if tag.value == 0 {
      var seg := ReadSegment(base, fd);
      r := if seg.None? then Short else Loaded(FaissFlat, seg.value);
    } else if tag.value == 1 {
      var seg := ReadSegment(base, fd);
      r := if seg.None? then Short else Loaded(FaissHNSW, seg.value);
    } else {
      r := Unknown;
    }
  }

  /** The bytes of a fresh file that holds one segment. */
  method Upload(base: BaseFormat, kind: SegmentType, seg: Segment) returns (bytes: seq<byte>, ghost o: Order)
    ensures Walked(seg.index.Value(), o)
    ensures bytes == Encode(base, Image(kind, seg.index.Value(), seg.segId), o)
  {
    var fd := new File([]);
    o := SerializeSegment(base, kind, seg, fd);
    bytes := fd.data;
  }

  method Download(base: BaseFormat, bytes: seq<byte>) returns (r: Loaded, left: seq<byte>)
    requires Consumes(base)
    ensures r.Loaded? ==> fresh(r.seg) && fresh(r.seg.index)
    ensures Follows(Decode(base, bytes), Outcome(r), left)
  {
    var fd := new File(bytes);
    r := DeserializeSegment(base, fd);
    left := fd.data[fd.pos..];
  }

  /** A segment sent through a file, as from the writer to a searcher: the copy holds what the original held,
      and the bytes behind it are left for the next reader. */
  method Ship(base: BaseFormat, kind: SegmentType, seg: Segment, trailer: seq<byte>)
    returns (copy: Segment, left: seq<byte>)
    requires Restoring(base) && Consumes(base)
    requires seg.Ok() && Fits(Image(kind, seg.index.Value(), seg.segId))
    ensures fresh(copy) && fresh(copy.index) && copy.Ok() && copy.Val() == seg.Val()
    ensures copy.index.Value() == seg.index.Value() && left == trailer
  {
    var bytes, o := Upload(base, kind, seg);
    DecodeEncode(base, Image(kind, seg.index.Value(), seg.segId), o, trailer);
    var loaded, rest := Download(base, bytes + trailer);
    copy, left := loaded.seg, rest;
  }
}
