/** Reading one enum field out of bytes a message carried unread, in the wire format of the Protocol
    Buffers encoding specification. */
module UnknownFields {
  import opened Policy

  type Bytes = seq<Byte>

  // ---- consuming from the front

  /** A value and the bytes after it. */
  datatype Got = Got(v: nat, rest: Bytes)

  /** Seven bits a byte, low ones first, in at most ten bytes; `k` of them came before. */
  function VarintFrom(b: Bytes, k: nat): (r: Option<Got>)
    ensures r.Some? ==> |r.value.rest| < |b|
    decreases b
  {
    if b == [] || k > 9 then None
    else if b[0] < (if k == 9 then 2 else 128) then Some(Got(b[0], b[1..]))
    else if k == 9 then None
    else
      match VarintFrom(b[1..], k + 1)
      case None => None
      case Some(g) => Some(Got(b[0] - 128 + 128 * g.v, g.rest))
  }

  function Varint(b: Bytes): (r: Option<Got>)
    ensures r.Some? ==> |r.value.rest| < |b|
  {
    VarintFrom(b, 0)
  }

  const MAX_NUMBER := 0x7fff_ffff

  datatype Tag = Tag(num: nat, typ: nat, rest: Bytes)

  function ConsumeTag(b: Bytes): (r: Option<Tag>)
    ensures r.Some? ==> |r.value.rest| < |b|
  {
    match Varint(b)
    case None => None
    case Some(g) =>
      var num := g.v / 8;
      if num < 1 || num > MAX_NUMBER then None else Some(Tag(num, g.v % 8, g.rest))
  }

  datatype Chunk = Chunk(bytes: Bytes, rest: Bytes)

  /** As many bytes as the length before them says. */
  function ConsumeBytes(b: Bytes): (r: Option<Chunk>)
    ensures r.Some? ==> |r.value.rest| < |b|
  {
    match Varint(b)
    case None => None
    case Some(g) => if g.v > |g.rest| then None else Some(Chunk(g.rest[..g.v], g.rest[g.v..]))
  }

  const VARINT := 0
  const FIXED64 := 1
  const BYTES := 2
  const START_GROUP := 3
  const END_GROUP := 4
  const FIXED32 := 5

  const RECURSION_LIMIT := 10000

  /** What is left after a field's value, whatever it is. */
  function ConsumeValue(num: nat, typ: nat, b: Bytes, depth: int): (r: Option<Bytes>)
    ensures r.Some? ==> |r.value| <= |b|
    decreases |b|, 1
  {
    if typ == VARINT then (match Varint(b) case None => None case Some(g) => Some(g.rest))
    else if typ == FIXED64 then (if |b| < 8 then None else Some(b[8..]))
    else if typ == FIXED32 then (if |b| < 4 then None else Some(b[4..]))
    else if typ == BYTES then (match ConsumeBytes(b) case None => None case Some(c) => Some(c.rest))
    else if typ == START_GROUP && depth >= 0 then ConsumeGroup(num, b, depth)
    else None
  }

  /** Fields up to the matching end. */
  function ConsumeGroup(num: nat, b: Bytes, depth: int): (r: Option<Bytes>)
    ensures r.Some? ==> |r.value| <= |b|
    decreases |b|, 0
  {
    match ConsumeTag(b)
    case None => None
    case Some(t) =>
      if t.typ == END_GROUP then (if t.num == num then Some(t.rest) else None)
      else
        match ConsumeValue(t.num, t.typ, t.rest, depth - 1)
        case None => None
        case Some(rest) => ConsumeGroup(num, rest, depth)
  }

  // ---- the field wanted

  /** An enum number is the low 32 bits of the varint, signed. */
  function EnumNumber(v: nat): int {
    var low := v % 0x1_0000_0000;
    if low < 0x8000_0000 then low else low - 0x1_0000_0000
  }

  /** The one 32-bit signed number that agrees with the varint in its low 32 bits. */
  lemma EnumNumberExactly(v: nat, n: int)
    ensures EnumNumber(v) == n <==> -0x8000_0000 <= n < 0x8000_0000 && (v - n) % 0x1_0000_0000 == 0
  {
    var low := v % 0x1_0000_0000;
    assert v == 0x1_0000_0000 * (v / 0x1_0000_0000) + low;
    if -0x8000_0000 <= n < 0x8000_0000 && (v - n) % 0x1_0000_0000 == 0 {
      var q := (v - n) / 0x1_0000_0000;
      assert v - n == 0x1_0000_0000 * q;
      assert low - n == 0x1_0000_0000 * (q - v / 0x1_0000_0000);
    }
  }

  /** A negative value is written sign-extended to 64 bits and is read back as itself, like any other. */
  lemma EnumsRoundTrip(n: int)
    requires -0x8000_0000 <= n < 0x8000_0000
    ensures EnumNumber(if n >= 0 then n else n + 0x1_0000_0000_0000_0000) == n
  {
    EnumNumberExactly(if n >= 0 then n else n + 0x1_0000_0000_0000_0000, n);
  }

  function Prepend(a: seq<int>, r: Option<seq<int>>): Option<seq<int>> {
    if r.None? then None else Some(a + r.value)
  }

  /** Varints to the end. */
  function Unpack(b: Bytes): Option<seq<int>>
    decreases |b|
  {
    if b == [] then Some([])
    else
      match Varint(b)
      case None => None
      case Some(g) => Prepend([EnumNumber(g.v)], Unpack(g.rest))
  }

  /** The numbers one field contributes, and the bytes after it. */
  datatype Taken = Taken(numbers: seq<int>, rest: Bytes)

  function TakeField(b: Bytes, want: nat): (r: Option<Taken>)
    ensures r.Some? ==> |r.value.rest| < |b|
  {
    match ConsumeTag(b)
    case None => None
    case Some(t) =>
      if t.num != want then
        (match ConsumeValue(t.num, t.typ, t.rest, RECURSION_LIMIT)
         case None => None
         case Some(rest) => Some(Taken([], rest)))
      else if t.typ == VARINT then
        (match Varint(t.rest) case None => None case Some(g) => Some(Taken([EnumNumber(g.v)], g.rest)))
      else if t.typ == BYTES then
        match ConsumeBytes(t.rest)
        case None => None
        case Some(c) => (match Unpack(c.bytes) case None => None case Some(ns) => Some(Taken(ns, c.rest)))
      else None
  }

  /** Every field; None as soon as one is malformed. */
  function Decode(b: Bytes, want: nat): Option<seq<int>>
    decreases |b|
  {
    if b == [] then Some([])
    else
      match TakeField(b, want)
      case None => None
      case Some(f) => Prepend(f.numbers, Decode(f.rest, want))
  }

  /** The whole list, or an empty one as soon as some field cannot be read. */
  method EnumsFromUnknown(raw: Bytes, want: nat) returns (out: seq<int>)
    ensures out == if Decode(raw, want).Some? then Decode(raw, want).value else []
  {
    out := [];
    var b := raw;
    PrependNothing(Decode(raw, want));
    while |b| > 0
      invariant Decode(raw, want) == Prepend(out, Decode(b, want))
    {
      var f := ReadField(b, want);
      if f.None? {
        return [];
      }
      PrependTwice(out, f.value.numbers, Decode(f.value.rest, want));
      out := out + f.value.numbers;
      b := f.value.rest;
    }
    assert out + [] == out;
  }

  /** One field: its tag, then its value by what the tag says. */
  method ReadField(b: Bytes, want: nat) returns (f: Option<Taken>)
    ensures f == TakeField(b, want)
  {
    var t := ConsumeTag(b);
    if t.None? {
      return None;
    }
    if t.value.num != want {
      var rest := ConsumeValue(t.value.num, t.value.typ, t.value.rest, RECURSION_LIMIT);
      return if rest.None? then None else Some(Taken([], rest.value));
    }
    if t.value.typ == VARINT {
      var g := Varint(t.value.rest);
      return if g.None? then None else Some(Taken([EnumNumber(g.value.v)], g.value.rest));
    }
    if t.value.typ != BYTES {
      return None;
    }
    var c := ConsumeBytes(t.value.rest);
    if c.None? {
      return None;
    }
    var ns := UnpackAll(c.value.bytes);
    return if ns.None? then None else Some(Taken(ns.value, c.value.rest));
  }

  method UnpackAll(bytes: Bytes) returns (ns: Option<seq<int>>)
    ensures ns == Unpack(bytes)
  {
    var out := [];
    var packed := bytes;
    PrependNothing(Unpack(bytes));
    while |packed| > 0
      invariant Unpack(bytes) == Prepend(out, Unpack(packed))
    {
      var g := Varint(packed);
      if g.None? {
        return None;
      }
      PrependTwice(out, [EnumNumber(g.value.v)], Unpack(g.value.rest));
      out := out + [EnumNumber(g.value.v)];
      packed := g.value.rest;
    }
    assert out + [] == out;
    ns := Some(out);
  }

  lemma PrependNothing(r: Option<seq<int>>)
    ensures Prepend([], r) == r
  {
    if r.Some? {
      assert [] + r.value == r.value;
    }
  }

  lemma PrependTwice(a: seq<int>, b: seq<int>, r: Option<seq<int>>)
    ensures Prepend(a, Prepend(b, r)) == Prepend(a + b, r)
  {
    if r.Some? {
      assert a + (b + r.value) == (a + b) + r.value;
    }
  }

  // ---- what a writer may write, each piece in front of what follows it

  /** `x` spells `v` in base 128, low digits first, the high bit on every byte but the last; the tenth byte has
      room for one bit. `k` bytes came before. */
  ghost predicate Spells(x: Bytes, v: nat, k: nat)
    decreases x
  {
    && x != [] && k < 10
    && if |x| == 1 then x[0] == v < (if k == 9 then 2 else 128)
       else x[0] == 128 + v % 128 && Spells(x[1..], v / 128, k + 1)
  }

  /** A varint's bytes, minimal or padded. */
  datatype Number = Number(bytes: Bytes, v: nat)

  ghost predicate ValidNumber(n: Number) {
    Spells(n.bytes, n.v, 0)
  }

  ghost predicate ValidTag(tag: Number, num: nat, typ: nat) {
    ValidNumber(tag) && tag.v == 8 * num + typ && 1 <= num <= 0x7fff_ffff && typ < 8
  }

  /** The value of a field nobody here is looking for; a group nests fields and carries its end. */
  datatype Payload =
    | PVarint(n: Number)
    | PFixed64(bytes: Bytes)
    | PFixed32(bytes: Bytes)
    | PBytes(len: Number, bytes: Bytes)
    | PGroup(fields: Fields)
  datatype Fields = EndGroup(tag: Number) | Field(tag: Number, num: nat, payload: Payload, next: Fields)

  /** The wire types as the encoding specification numbers them. */
  function TypeOf(p: Payload): nat {
    match p
    case PVarint(_) => 0
    case PFixed64(_) => 1
    case PBytes(_, _) => 2
    case PGroup(_) => 3
    case PFixed32(_) => 5
  }

  function WritePayload(p: Payload, rest: Bytes): Bytes
    decreases p
  {
    match p
    case PVarint(n) => n.bytes + rest
    case PFixed64(bytes) => bytes + rest
    case PFixed32(bytes) => bytes + rest
    case PBytes(len, bytes) => len.bytes + (bytes + rest)
    case PGroup(fields) => WriteFields(fields, rest)
  }

  function WriteFields(fs: Fields, rest: Bytes): Bytes
    decreases fs
  {
    match fs
    case EndGroup(tag) => tag.bytes + rest
    case Field(tag, _, p, next) => tag.bytes + WritePayload(p, WriteFields(next, rest))
  }

  /** Well-formed, and groups no deeper than a reader follows. */
  ghost predicate ValidPayload(num: nat, p: Payload, depth: int)
    decreases p
  {
    match p
    case PVarint(n) => ValidNumber(n)
    case PFixed64(bytes) => |bytes| == 8
    case PFixed32(bytes) => |bytes| == 4
    case PBytes(len, bytes) => ValidNumber(len) && len.v == |bytes|
    case PGroup(fields) => depth >= 0 && ValidFields(num, fields, depth)
  }

  ghost predicate ValidFields(group: nat, fs: Fields, depth: int)
    decreases fs
  {
    match fs
    case EndGroup(tag) => ValidTag(tag, group, 4)
    case Field(tag, num, p, next) =>
      ValidTag(tag, num, TypeOf(p)) && ValidPayload(num, p, depth - 1) && ValidFields(group, next, depth)
  }

  /** One field of a message: an occurrence of the enum, alone or packed, or anything else. */
  datatype Item =
    | Single(tag: Number, n: Number)
    | Packed(tag: Number, len: Number, parts: seq<Number>)
    | Other(tag: Number, num: nat, payload: Payload)

  function WriteParts(ps: seq<Number>): Bytes {
    if ps == [] then [] else ps[0].bytes + WriteParts(ps[1..])
  }

  function WriteItem(item: Item, rest: Bytes): Bytes {
    match item
    case Single(tag, n) => tag.bytes + (n.bytes + rest)
    case Packed(tag, len, parts) => tag.bytes + (len.bytes + (WriteParts(parts) + rest))
    case Other(tag, _, p) => tag.bytes + WritePayload(p, rest)
  }

  function WriteItems(items: seq<Item>, rest: Bytes): Bytes {
    if items == [] then rest else WriteItem(items[0], WriteItems(items[1..], rest))
  }

  ghost predicate ValidItem(want: nat, item: Item) {
    match item
    case Single(tag, n) => ValidTag(tag, want, 0) && ValidNumber(n)
    case Packed(tag, len, parts) =>
      && ValidTag(tag, want, 2) && ValidNumber(len) && len.v == |WriteParts(parts)|
      && forall n | n in parts :: ValidNumber(n)
    case Other(tag, num, p) => num != want && ValidTag(tag, num, TypeOf(p)) && ValidPayload(num, p, 10000)
  }

  /** The enum numbers written, in order. */
  function PartNumbers(ps: seq<Number>): seq<int> {
    if ps == [] then [] else [EnumNumber(ps[0].v)] + PartNumbers(ps[1..])
  }

  function ItemNumbers(item: Item): seq<int> {
    match item
    case Single(_, n) => [EnumNumber(n.v)]
    case Packed(_, _, parts) => PartNumbers(parts)
    case Other(_, _, _) => []
  }

  function Numbers(items: seq<Item>): seq<int> {
    if items == [] then [] else ItemNumbers(items[0]) + Numbers(items[1..])
  }

  // ---- reading back

  /** A varint is read as what it spells, whatever follows. */
  lemma {:induction false} SpelledReads(x: Bytes, v: nat, k: nat, rest: Bytes)
    requires Spells(x, v, k)
    ensures VarintFrom(x + rest, k) == Some(Got(v, rest))
    decreases x
  {
    assert (x + rest)[0] == x[0];
    assert (x + rest)[1..] == x[1..] + rest;
    if |x| == 1 {
      assert x[1..] + rest == rest;
    } else {
      SpelledReads(x[1..], v / 128, k + 1, rest);
    }
  }

  lemma NumberReads(n: Number, rest: Bytes)
    requires ValidNumber(n)
    ensures Varint(n.bytes + rest) == Some(Got(n.v, rest))
  {
    SpelledReads(n.bytes, n.v, 0, rest);
  }

  lemma TagReads(tag: Number, num: nat, typ: nat, rest: Bytes)
    requires ValidTag(tag, num, typ)
    ensures ConsumeTag(tag.bytes + rest) == Some(Tag(num, typ, rest))
  {
    NumberReads(tag, rest);
  }

  lemma BytesRead(len: Number, bytes: Bytes, rest: Bytes)
    requires ValidNumber(len) && len.v == |bytes|
    ensures ConsumeBytes(len.bytes + (bytes + rest)) == Some(Chunk(bytes, rest))
  {
    NumberReads(len, bytes + rest);
    assert (bytes + rest)[..|bytes|] == bytes && (bytes + rest)[|bytes|..] == rest;
  }

  /** A value is read as itself and no further. */
  lemma {:induction false} PayloadReads(num: nat, p: Payload, depth: int, rest: Bytes)
    requires ValidPayload(num, p, depth)
    ensures ConsumeValue(num, TypeOf(p), WritePayload(p, rest), depth) == Some(rest)
    decreases p
  {
    match p
    case PVarint(n) => NumberReads(n, rest);
    case PFixed64(bytes) => assert (bytes + rest)[8..] == rest;
    case PFixed32(bytes) => assert (bytes + rest)[4..] == rest;
    case PBytes(len, bytes) => BytesRead(len, bytes, rest);
    case PGroup(fields) => GroupReads(num, fields, depth, rest);
  }

  lemma {:induction false} GroupReads(group: nat, fs: Fields, depth: int, rest: Bytes)
    requires ValidFields(group, fs, depth)
    ensures ConsumeGroup(group, WriteFields(fs, rest), depth) == Some(rest)
    decreases fs
  {
    match fs
    case EndGroup(tag) =>
      TagReads(tag, group, END_GROUP, rest);
    case Field(tag, num, p, next) =>
      var more := WriteFields(next, rest);
      GroupReads(group, next, depth, rest);
      PayloadReads(num, p, depth - 1, more);
      TagReads(tag, num, TypeOf(p), WritePayload(p, more));
  }

  lemma {:induction false} UnpackReads(ps: seq<Number>)
    requires forall n | n in ps :: ValidNumber(n)
    ensures Unpack(WriteParts(ps)) == Some(PartNumbers(ps))
  {
    if ps != [] {
      UnpackReads(ps[1..]);
      NumberReads(ps[0], WriteParts(ps[1..]));
    }
  }

  lemma ItemReads(want: nat, item: Item, rest: Bytes)
    requires ValidItem(want, item)
    ensures TakeField(WriteItem(item, rest), want) == Some(Taken(ItemNumbers(item), rest))
  {
    match item
    case Single(tag, n) =>
      TagReads(tag, want, VARINT, n.bytes + rest);
      NumberReads(n, rest);
    case Packed(tag, len, parts) =>
      TagReads(tag, want, BYTES, len.bytes + (WriteParts(parts) + rest));
      BytesRead(len, WriteParts(parts), rest);
      UnpackReads(parts);
    case Other(tag, num, p) =>
      TagReads(tag, num, TypeOf(p), WritePayload(p, rest));
      PayloadReads(num, p, RECURSION_LIMIT, rest);
  }

  /** Whatever fields are interleaved, and however each occurrence is written, what is recovered is the values
      of the wanted field in order; and nothing at all if what follows does not parse. */
  lemma {:induction false} DecodingReadsWhatWasWritten(want: nat, items: seq<Item>, rest: Bytes)
    requires forall item | item in items :: ValidItem(want, item)
    ensures Decode(WriteItems(items, rest), want) == Prepend(Numbers(items), Decode(rest, want))
  {
    if items == [] {
      PrependNothing(Decode(rest, want));
    } else {
      var more := WriteItems(items[1..], rest);
      DecodingReadsWhatWasWritten(want, items[1..], rest);
      ItemReads(want, items[0], more);
      PrependTwice(ItemNumbers(items[0]), Numbers(items[1..]), Decode(rest, want));
    }
  }

  // ---- and nothing else is read

  lemma {:induction false} ReadIsSpelled(b: Bytes, k: nat) returns (x: Bytes)
    requires VarintFrom(b, k).Some?
    ensures var g := VarintFrom(b, k).value; b == x + g.rest && Spells(x, g.v, k)
    decreases b
  {
    if b[0] < 128 {
      x := [b[0]];
    } else {
      var y := ReadIsSpelled(b[1..], k + 1);
      x := [b[0]] + y;
      assert x[1..] == y;
    }
  }

  lemma NumberRead(b: Bytes) returns (n: Number)
    requires Varint(b).Some?
    ensures ValidNumber(n) && b == n.bytes + Varint(b).value.rest && n.v == Varint(b).value.v
  {
    var x := ReadIsSpelled(b, 0);
    n := Number(x, Varint(b).value.v);
  }

  lemma TagRead(b: Bytes) returns (tag: Number)
    requires ConsumeTag(b).Some?
    ensures var t := ConsumeTag(b).value; ValidTag(tag, t.num, t.typ) && b == tag.bytes + t.rest
  {
    tag := NumberRead(b);
  }

  lemma BytesWereRead(b: Bytes) returns (len: Number)
    requires ConsumeBytes(b).Some?
    ensures var c := ConsumeBytes(b).value;
            ValidNumber(len) && len.v == |c.bytes| && b == len.bytes + (c.bytes + c.rest)
  {
    len := NumberRead(b);
    var g := Varint(b).value;
    assert g.rest == g.rest[..g.v] + g.rest[g.v..];
  }

  lemma {:induction false} PayloadRead(num: nat, typ: nat, b: Bytes, depth: int) returns (p: Payload)
    requires ConsumeValue(num, typ, b, depth).Some?
    ensures ValidPayload(num, p, depth) && TypeOf(p) == typ
    ensures b == WritePayload(p, ConsumeValue(num, typ, b, depth).value)
    decreases |b|, 1
  {
    if typ == VARINT {
      var n := NumberRead(b);
      p := PVarint(n);
    } else if typ == FIXED64 {
      p := PFixed64(b[..8]);
    } else if typ == FIXED32 {
      p := PFixed32(b[..4]);
    } else if typ == BYTES {
      var len := BytesWereRead(b);
      p := PBytes(len, ConsumeBytes(b).value.bytes);
    } else {
      var fs := GroupRead(num, b, depth);
      p := PGroup(fs);
    }
  }

  lemma {:induction false} GroupRead(group: nat, b: Bytes, depth: int) returns (fs: Fields)
    requires ConsumeGroup(group, b, depth).Some?
    ensures ValidFields(group, fs, depth) && b == WriteFields(fs, ConsumeGroup(group, b, depth).value)
    decreases |b|, 0
  {
    var tag := TagRead(b);
    var t := ConsumeTag(b).value;
    if t.typ == END_GROUP {
      fs := EndGroup(tag);
    } else {
      var p := PayloadRead(t.num, t.typ, t.rest, depth - 1);
      var next := GroupRead(group, ConsumeValue(t.num, t.typ, t.rest, depth - 1).value, depth);
      fs := Field(tag, t.num, p, next);
    }
  }

  lemma {:induction false} UnpackedRead(b: Bytes) returns (ps: seq<Number>)
    requires Unpack(b).Some?
    ensures (forall n | n in ps :: ValidNumber(n)) && b == WriteParts(ps) && Unpack(b).value == PartNumbers(ps)
    decreases |b|
  {
    if b == [] {
      ps := [];
    } else {
      var n := NumberRead(b);
      var more := UnpackedRead(Varint(b).value.rest);
      ps := [n] + more;
      assert ps[1..] == more;
    }
  }

  lemma ItemRead(b: Bytes, want: nat) returns (item: Item)
    requires TakeField(b, want).Some?
    ensures var f := TakeField(b, want).value;
            ValidItem(want, item) && b == WriteItem(item, f.rest) && ItemNumbers(item) == f.numbers
  {
    var tag := TagRead(b);
    var t := ConsumeTag(b).value;
    if t.num != want {
      var p := PayloadRead(t.num, t.typ, t.rest, RECURSION_LIMIT);
      item := Other(tag, t.num, p);
    } else if t.typ == VARINT {
      var n := NumberRead(t.rest);
      item := Single(tag, n);
    } else {
      var len := BytesWereRead(t.rest);
      var parts := UnpackedRead(ConsumeBytes(t.rest).value.bytes);
      item := Packed(tag, len, parts);
    }
  }

  lemma {:induction false} ItemsRead(b: Bytes, want: nat) returns (items: seq<Item>)
    requires Decode(b, want).Some?
    ensures IsWriting(items, want, b) && Numbers(items) == Decode(b, want).value
    decreases |b|
  {
    if b == [] {
      items := [];
    } else {
      var item := ItemRead(b, want);
      var more := ItemsRead(TakeField(b, want).value.rest, want);
      items := [item] + more;
      assert items[1..] == more;
    }
  }

  /** The bytes are these fields and no more. */
  ghost predicate IsWriting(items: seq<Item>, want: nat, b: Bytes) {
    (forall item | item in items :: ValidItem(want, item)) && WriteItems(items, []) == b
  }

  /** The numbers read are exactly those of some way to write the bytes as well-formed fields; bytes that no such
      way writes, a malformed end among them, read as nothing. */
  lemma DecodingIsExact(b: Bytes, want: nat, ns: seq<int>)
    ensures Decode(b, want) == Some(ns) <==> exists items :: IsWriting(items, want, b) && Numbers(items) == ns
  {
    if Decode(b, want) == Some(ns) {
      var items := ItemsRead(b, want);
    }
    forall items | IsWriting(items, want, b) ensures Decode(b, want) == Some(Numbers(items)) {
      DecodingReadsWhatWasWritten(want, items, []);
      assert Numbers(items) + [] == Numbers(items);
    }
  }

  // ---- every value has an encoding

  function EncodeVarint(v: nat): Bytes {
    if v < 128 then [v] else [128 + v % 128] + EncodeVarint(v / 128)
  }

  /** The least value too large for the bytes left after `k`. */
  function Bound(k: nat): nat
    requires k <= 9
    decreases 9 - k
  {
    if k == 9 then 2 else 128 * Bound(k + 1)
  }

  lemma {:induction false} EncodedFrom(v: nat, k: nat)
    requires k <= 9 && v < Bound(k)
    ensures Spells(EncodeVarint(v), v, k)
    decreases v
  {
    if v >= 128 {
      assert EncodeVarint(v)[1..] == EncodeVarint(v / 128);
      EncodedFrom(v / 128, k + 1);
    }
  }

  const TWO_64 := 0x1_0000_0000_0000_0000

  /** The minimal encoding of any 64-bit value is one a reader takes. */
  lemma EncodeVarintIsVarint(v: nat)
    requires v < TWO_64
    ensures ValidNumber(Number(EncodeVarint(v), v))
  {
    assert Bound(9) == 2 && Bound(8) == 128 * 2 && Bound(7) == 128 * Bound(8) && Bound(6) == 128 * Bound(7);
    assert Bound(5) == 128 * Bound(6) && Bound(4) == 128 * Bound(5) && Bound(3) == 128 * Bound(4);
    assert Bound(2) == 128 * Bound(3) && Bound(1) == 128 * Bound(2) && Bound(0) == 128 * Bound(1);
    EncodedFrom(v, 0);
  }
}
