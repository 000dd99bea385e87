/**
 The wire format (internal/gateway/codec.go, api/proto/gateway.proto:7-11).

 A packet is a 4-byte big-endian body length followed by a protobuf-encoded
 Frame.  The encoding of Frame follows the Protocol Buffers Encoding
 specification, sections "Base 128 Varints", "Message Structure" and
 "Length-Delimited Records".
 */
module Codec {
  import opened Prelude

  type Byte = b: int | 0 <= b < 256
  type Bytes = seq<Byte>
  type U32 = n: int | 0 <= n < 0x1_0000_0000

  const HEADER_SIZE: int := 4
  const MAX_FRAME_SIZE: int := 65536

  datatype Frame = Frame(cmdId: U32, seqNo: U32, payload: Bytes)

  const DEFAULT_FRAME := Frame(0, 0, [])

  // ---------------------------------------------------------------------
  // Varints
  // ---------------------------------------------------------------------

  function Varint(n: nat): Bytes {
    if n < 128 then [n] else [n % 128 + 128] + Varint(n / 128)
  }

  /** Reads a varint of at most 64 bits, `k` bytes of which are already read. */
  function ReadVarint(bs: Bytes, k: nat): (r: Option<(nat, Bytes)>)
    requires k <= 9
    ensures r.Some? ==> |r.value.1| < |bs|
    decreases 9 - k
  {
    if bs == [] then None
    else if k == 9 then (if bs[0] < 2 then Some((bs[0], bs[1..])) else None)
    else if bs[0] < 128 then Some((bs[0], bs[1..]))
    else
      var more := ReadVarint(bs[1..], k + 1);
      if more.None? then None else Some((bs[0] - 128 + 128 * more.value.0, more.value.1))
  }

  /** One more than the largest number that fits after `k` bytes of a varint. */
  function Room(k: nat): nat
    requires k <= 9
    decreases 9 - k
  {
    if k == 9 then 2 else 128 * Room(k + 1)
  }

  lemma {:induction false} VarintRoundTrip(n: nat, k: nat, rest: Bytes)
    requires k <= 9 && n < Room(k)
    ensures ReadVarint(Varint(n) + rest, k) == Some((n, rest))
    decreases 9 - k
  {
    var bs := Varint(n) + rest;
    if n < 128 {
      assert bs[1..] == rest;
    } else {
      assert bs[1..] == Varint(n / 128) + rest;
      VarintRoundTrip(n / 128, k + 1, rest);
    }
  }

  lemma U32Fits(n: nat)
    requires n < 0x1_0000_0000
    ensures n < Room(0)
  {
    assert Room(7) == 128 * (128 * 2);
    assert Room(5) == 128 * (128 * Room(7));
    assert Room(3) == 128 * (128 * Room(5));
    assert Room(1) == 128 * (128 * Room(3));
  }

  // ---------------------------------------------------------------------
  // proto.Marshal and proto.Unmarshal of a Frame
  // ---------------------------------------------------------------------

  const VARINT: int := 0
  const FIXED64: int := 1
  const LEN: int := 2
  const START_GROUP: int := 3
  const END_GROUP: int := 4
  const FIXED32: int := 5

  const RECURSION_LIMIT: nat := 10000

  function Tag(field: nat, wireType: nat): nat { 8 * field + wireType }

  /** A scalar field; proto3 leaves out the default value. */
  function ScalarField(field: nat, n: nat): Bytes {
    if n == 0 then [] else Varint(Tag(field, VARINT)) + Varint(n)
  }

  function BytesField(field: nat, data: Bytes): Bytes {
    if data == [] then [] else Varint(Tag(field, LEN)) + Varint(|data|) + data
  }

  function Marshal(f: Frame): Bytes {
    ScalarField(1, f.cmdId) + ScalarField(2, f.seqNo) + BytesField(3, f.payload)
  }

  function Drop(bs: Bytes, n: nat): (r: Option<Bytes>)
    ensures r.Some? ==> |r.value| <= |bs|
  {
    if n <= |bs| then Some(bs[n..]) else None
  }

  /** A length-delimited record: its content and what follows. */
  function ReadBytes(bs: Bytes): (r: Option<(Bytes, Bytes)>)
    ensures r.Some? ==> |r.value.1| < |bs|
  {
    var len := ReadVarint(bs, 0);
    if len.None? || len.value.0 > |len.value.1| then None
    else Some((len.value.1[..len.value.0], len.value.1[len.value.0..]))
  }

  /** What follows a field value of unknown meaning. */
  function SkipValue(field: nat, wireType: nat, bs: Bytes, depth: int): (r: Option<Bytes>)
    ensures r.Some? ==> |r.value| <= |bs|
    decreases |bs|, 1
  {
    if wireType == VARINT then
      var v := ReadVarint(bs, 0);
      if v.None? then None else Some(v.value.1)
    else if wireType == FIXED64 then Drop(bs, 8)
    else if wireType == LEN then
      var v := ReadBytes(bs);
      if v.None? then None else Some(v.value.1)
    else if wireType == FIXED32 then Drop(bs, 4)
    else if wireType == START_GROUP && depth >= 0 then SkipGroup(field, bs, depth)
    else None
  }

  /** What follows the fields of a group up to and including its end tag. */
  function SkipGroup(field: nat, bs: Bytes, depth: int): (r: Option<Bytes>)
    ensures r.Some? ==> |r.value| <= |bs|
    decreases |bs|, 0
  {
    var tag := ReadVarint(bs, 0);
    if tag.None? || !(1 <= tag.value.0 / 8 < 0x8000_0000) then None
    else if tag.value.0 % 8 == END_GROUP then
      if tag.value.0 / 8 == field then Some(tag.value.1) else None
    else
      var after := SkipValue(tag.value.0 / 8, tag.value.0 % 8, tag.value.1, depth - 1);
      if after.None? then None else SkipGroup(field, after.value, depth)
  }

  /** Reads fields into `acc` until the end; the last value of a field wins. */
  function ReadFields(bs: Bytes, acc: Frame): Option<Frame>
    decreases |bs|
  {
    if bs == [] then Some(acc)
    else
      var tag := ReadVarint(bs, 0);
      if tag.None? || !(1 <= tag.value.0 / 8 < 0x2000_0000) then None
      else
        var field, wireType, rest := tag.value.0 / 8, tag.value.0 % 8, tag.value.1;
        if (field == 1 || field == 2) && wireType == VARINT then
          var v := ReadVarint(rest, 0);
          if v.None? then None
          else
            var n: U32 := v.value.0 % 0x1_0000_0000;
            ReadFields(v.value.1, if field == 1 then acc.(cmdId := n) else acc.(seqNo := n))
        else if field == 3 && wireType == LEN then
          var v := ReadBytes(rest);
          if v.None? then None else ReadFields(v.value.1, acc.(payload := v.value.0))
        else
          var after := SkipValue(field, wireType, rest, RECURSION_LIMIT);
          if after.None? then None else ReadFields(after.value, acc)
  }

  function Unmarshal(bs: Bytes): Option<Frame> { ReadFields(bs, DEFAULT_FRAME) }

  /** A tag tells its field and its wire type. */
  lemma TagParts(field: nat, wireType: nat)
    requires wireType < 8
    ensures Tag(field, wireType) / 8 == field && Tag(field, wireType) % 8 == wireType
  {}

  /** One scalar field off the front; of a number wider than 32 bits the low 32 count. */
  lemma {:induction false} ReadsScalarStep(bs: Bytes, field: nat, v: nat, value: Bytes, rest: Bytes, acc: Frame)
    requires field == 1 || field == 2
    requires ReadVarint(bs, 0) == Some((Tag(field, VARINT), value)) && ReadVarint(value, 0) == Some((v, rest))
    ensures ReadFields(bs, acc)
         == ReadFields(rest, if field == 1 then acc.(cmdId := v % 0x1_0000_0000) else acc.(seqNo := v % 0x1_0000_0000))
  {
    TagParts(field, VARINT);
  }

  lemma {:induction false} WideScalarCut(field: nat, v: nat, rest: Bytes, acc: Frame)
    requires (field == 1 || field == 2) && v < Room(0)
    ensures ReadFields(Varint(Tag(field, VARINT)) + (Varint(v) + rest), acc)
         == ReadFields(rest, if field == 1 then acc.(cmdId := v % 0x1_0000_0000) else acc.(seqNo := v % 0x1_0000_0000))
  {
    ReadsTag(Tag(field, VARINT), Varint(v) + rest);
    VarintRoundTrip(v, 0, rest);
    ReadsScalarStep(Varint(Tag(field, VARINT)) + (Varint(v) + rest), field, v, Varint(v) + rest, rest, acc);
  }

  /** A payload field off the front. */
  lemma {:induction false} ReadsPayloadStep(bs: Bytes, data: Bytes, value: Bytes, rest: Bytes, acc: Frame)
    requires ReadVarint(bs, 0) == Some((Tag(3, LEN), value)) && ReadBytes(value) == Some((data, rest))
    ensures ReadFields(bs, acc) == ReadFields(rest, acc.(payload := data))
  {}

  /** Every tag of Frame fits in a varint. */
  lemma {:induction false} ReadsTag(tag: nat, rest: Bytes)
    requires tag < 128
    ensures ReadVarint(Varint(tag) + rest, 0) == Some((tag, rest))
  {
    assert ([tag] + rest)[1..] == rest;
  }

  lemma {:induction false} NarrowScalar(field: nat, n: U32, rest: Bytes, acc: Frame)
    requires field == 1 || field == 2
    ensures ReadFields(Varint(Tag(field, VARINT)) + (Varint(n) + rest), acc)
         == ReadFields(rest, if field == 1 then acc.(cmdId := n) else acc.(seqNo := n))
  {
    U32Fits(n);
    assert n % 0x1_0000_0000 == n;
    WideScalarCut(field, n, rest, acc);
  }

  /** `acc` after a scalar field; a default value is not on the wire. */
  function WithScalar(acc: Frame, field: nat, n: U32): Frame {
    if n == 0 then acc else if field == 1 then acc.(cmdId := n) else acc.(seqNo := n)
  }

  lemma {:induction false} ReadsScalar(field: nat, n: U32, rest: Bytes, acc: Frame)
    requires field == 1 || field == 2
    ensures ReadFields(ScalarField(field, n) + rest, acc) == ReadFields(rest, WithScalar(acc, field, n))
  {
    if n == 0 {
      assert ScalarField(field, n) + rest == rest;
    } else {
      assert ScalarField(field, n) + rest == Varint(Tag(field, VARINT)) + (Varint(n) + rest);
      NarrowScalar(field, n, rest, acc);
    }
  }

  lemma {:induction false} ReadsPayload(data: Bytes, rest: Bytes, acc: Frame)
    requires |data| <= MAX_FRAME_SIZE
    ensures ReadFields(BytesField(3, data) + rest, acc) == ReadFields(rest, if data == [] then acc else acc.(payload := data))
  {
    if data == [] {
      assert BytesField(3, data) + rest == rest;
    } else {
      var tag, value := Tag(3, LEN), Varint(|data|) + (data + rest);
      assert BytesField(3, data) + rest == Varint(tag) + value;
      ReadsTag(tag, value);
      U32Fits(|data|);
      VarintRoundTrip(|data|, 0, data + rest);
      assert (data + rest)[..|data|] == data && (data + rest)[|data|..] == rest;
      ReadsPayloadStep(Varint(tag) + value, data, value, rest, acc);
    }
  }

  /** `f` with every field that `g` sets replaced. */
  function Merge(f: Frame, g: Frame): Frame {
    Frame(if g.cmdId == 0 then f.cmdId else g.cmdId,
          if g.seqNo == 0 then f.seqNo else g.seqNo,
          if g.payload == [] then f.payload else g.payload)
  }

  /** Reading a marshalled frame merges it into what was read before. */
  lemma {:induction false} ReadsMarshal(g: Frame, rest: Bytes, acc: Frame)
    requires |g.payload| <= MAX_FRAME_SIZE
    ensures ReadFields(Marshal(g) + rest, acc) == ReadFields(rest, Merge(acc, g))
  {
    var second, third := ScalarField(2, g.seqNo), BytesField(3, g.payload);
    var acc1 := WithScalar(acc, 1, g.cmdId);
    var acc2 := WithScalar(acc1, 2, g.seqNo);
    calc {
      ReadFields(Marshal(g) + rest, acc);
      { assert Marshal(g) + rest == ScalarField(1, g.cmdId) + (second + (third + rest)); }
      ReadFields(ScalarField(1, g.cmdId) + (second + (third + rest)), acc);
      { ReadsScalar(1, g.cmdId, second + (third + rest), acc); }
      ReadFields(second + (third + rest), acc1);
      { ReadsScalar(2, g.seqNo, third + rest, acc1); }
      ReadFields(third + rest, acc2);
      { ReadsPayload(g.payload, rest, acc2); }
      ReadFields(rest, Merge(acc, g));
    }
  }

  lemma MarshalRoundTrip(f: Frame)
    requires |f.payload| <= MAX_FRAME_SIZE
    ensures Unmarshal(Marshal(f)) == Some(f)
  {
    ReadsMarshal(f, [], DEFAULT_FRAME);
    assert Marshal(f) + [] == Marshal(f);
  }

  /** Two marshalled frames in a row read as the second merged into the first. */
  lemma ConcatMerges(f: Frame, g: Frame)
    requires |f.payload| <= MAX_FRAME_SIZE && |g.payload| <= MAX_FRAME_SIZE
    ensures Unmarshal(Marshal(f) + Marshal(g)) == Some(Merge(f, g))
  {
    ReadsMarshal(f, Marshal(g), DEFAULT_FRAME);
    ReadsMarshal(g, [], f);
    assert Marshal(g) + [] == Marshal(g);
  }

  // ---- What is refused ----

  /** A varint that stops short is refused. */
  lemma {:induction false} CutVarintRefused(n: nat, k: nat, m: nat)
    requires k <= 9 && n < Room(k) && m < |Varint(n)|
    ensures ReadVarint(Varint(n)[..m], k) == None
    decreases 9 - k
  {
    if m > 0 {
      assert n >= 128 && Varint(n)[..m][1..] == Varint(n / 128)[..m - 1];
      CutVarintRefused(n / 128, k + 1, m - 1);
    }
  }

  /** A payload that stops short of its length is refused. */
  lemma {:induction false} CutPayloadRefused(n: nat, data: Bytes, acc: Frame)
    requires |data| < n < Room(0)
    ensures ReadFields(Varint(Tag(3, LEN)) + (Varint(n) + data), acc) == None
  {
    ReadsTag(Tag(3, LEN), Varint(n) + data);
    VarintRoundTrip(n, 0, data);
    assert ReadBytes(Varint(n) + data) == None;
  }

  /** So are field number 0, an end of group outside a group, and the wire types that do not exist. */
  lemma {:induction false} BadTagRefused(tag: nat, rest: Bytes, acc: Frame)
    requires tag < 0x1_0000_0000 && (tag / 8 == 0 || tag % 8 == 4 || tag % 8 == 6 || tag % 8 == 7)
    ensures ReadFields(Varint(tag) + rest, acc) == None
  {
    U32Fits(tag);
    VarintRoundTrip(tag, 0, rest);
  }

  // ---- Fields that Frame does not have ----

  /** A value of any wire type, under a field number. */
  datatype Field = Field(number: nat, value: Value)

  datatype Value =
    | Number(n: nat)
    | Eight(bs: Bytes)
    | Length(bs: Bytes)
    | Group(fields: seq<Field>)
    | Four(bs: Bytes)

  function WireType(v: Value): nat {
    match v
    case Number(_) => VARINT
    case Eight(_) => FIXED64
    case Length(_) => LEN
    case Group(_) => START_GROUP
    case Four(_) => FIXED32
  }

  /** What the wire format can carry: numbers and lengths of 64 bits, field numbers of 29, groups nested up to `depth`. */
  predicate Fits(x: Field, depth: int)
    decreases x, 0
  {
    1 <= x.number < 0x2000_0000 &&
    match x.value
    case Number(n) => n < Room(0)
    case Eight(bs) => |bs| == 8
    case Length(bs) => |bs| < Room(0)
    case Group(fields) => depth >= 0 && AllFit(fields, depth - 1)
    case Four(bs) => |bs| == 4
  }

  predicate AllFit(fields: seq<Field>, depth: int)
    decreases fields, 1
  {
    forall i :: 0 <= i < |fields| ==> Fits(fields[i], depth)
  }

  function EncodeValue(number: nat, v: Value): Bytes
    decreases v, 0
  {
    match v
    case Number(n) => Varint(n)
    case Eight(bs) => bs
    case Length(bs) => Varint(|bs|) + bs
    case Group(fields) => EncodeFields(fields) + Varint(Tag(number, END_GROUP))
    case Four(bs) => bs
  }

  function EncodeField(x: Field): Bytes
    decreases x, 1
  {
    Varint(Tag(x.number, WireType(x.value))) + EncodeValue(x.number, x.value)
  }

  function EncodeFields(fields: seq<Field>): Bytes
    decreases fields, 2
  {
    if fields == [] then [] else EncodeField(fields[0]) + EncodeFields(fields[1..])
  }

  lemma {:induction false} ReadsAnyTag(number: nat, wireType: nat, rest: Bytes)
    requires 1 <= number < 0x2000_0000 && wireType < 8
    ensures ReadVarint(Varint(Tag(number, wireType)) + rest, 0) == Some((Tag(number, wireType), rest))
  {
    U32Fits(Tag(number, wireType));
    VarintRoundTrip(Tag(number, wireType), 0, rest);
  }

  lemma {:induction false} SkipsValue(x: Field, rest: Bytes, depth: int)
    requires Fits(x, depth)
    ensures SkipValue(x.number, WireType(x.value), EncodeValue(x.number, x.value) + rest, depth) == Some(rest)
    decreases x, 1
  {
    match x.value
    case Number(n) => VarintRoundTrip(n, 0, rest);
    case Eight(bs) => assert (bs + rest)[8..] == rest;
    case Length(bs) =>
      assert Varint(|bs|) + bs + rest == Varint(|bs|) + (bs + rest);
      VarintRoundTrip(|bs|, 0, bs + rest);
      assert (bs + rest)[|bs|..] == rest;
    case Group(fields) =>
      var end := Varint(Tag(x.number, END_GROUP));
      assert EncodeFields(fields) + end + rest == EncodeFields(fields) + (end + rest);
      SkipsGroup(x.number, fields, rest, depth);
    case Four(bs) => assert (bs + rest)[4..] == rest;
  }

  lemma {:induction false} SkipsGroup(number: nat, fields: seq<Field>, rest: Bytes, depth: int)
    requires 1 <= number < 0x2000_0000 && AllFit(fields, depth - 1)
    ensures SkipGroup(number, EncodeFields(fields) + (Varint(Tag(number, END_GROUP)) + rest), depth) == Some(rest)
    decreases fields, 0
  {
    var end := Varint(Tag(number, END_GROUP)) + rest;
    if fields == [] {
      assert EncodeFields(fields) + end == end;
      ReadsAnyTag(number, END_GROUP, rest);
      TagParts(number, END_GROUP);
    } else {
      var x, more := fields[0], EncodeFields(fields[1..]) + end;
      var wireType := WireType(x.value);
      var value := EncodeValue(x.number, x.value) + more;
      assert EncodeFields(fields) + end == Varint(Tag(x.number, wireType)) + value;
      assert Fits(x, depth - 1);
      ReadsAnyTag(x.number, wireType, value);
      TagParts(x.number, wireType);
      SkipsValue(x, more, depth - 1);
      SkipsGroup(number, fields[1..], rest, depth);
    }
  }

  /** A field that Frame does not have, or has with another wire type. */
  predicate Foreign(x: Field) {
    x.number >= 4 || (x.number == 3 && !x.value.Length?) || (x.number < 3 && !x.value.Number?)
  }

  lemma {:induction false} IgnoresField(x: Field, rest: Bytes, acc: Frame)
    requires Foreign(x) && Fits(x, RECURSION_LIMIT)
    ensures ReadFields(EncodeField(x) + rest, acc) == ReadFields(rest, acc)
  {
    var wireType := WireType(x.value);
    var value := EncodeValue(x.number, x.value) + rest;
    assert EncodeField(x) + rest == Varint(Tag(x.number, wireType)) + value;
    ReadsAnyTag(x.number, wireType, value);
    TagParts(x.number, wireType);
    SkipsValue(x, rest, RECURSION_LIMIT);
  }

  lemma {:induction false} IgnoresFields(xs: seq<Field>, rest: Bytes, acc: Frame)
    requires AllFit(xs, RECURSION_LIMIT) && forall i :: 0 <= i < |xs| ==> Foreign(xs[i])
    ensures ReadFields(EncodeFields(xs) + rest, acc) == ReadFields(rest, acc)
  {
    if xs == [] {
      assert EncodeFields(xs) + rest == rest;
    } else {
      assert EncodeFields(xs) + rest == EncodeField(xs[0]) + (EncodeFields(xs[1..]) + rest);
      IgnoresField(xs[0], EncodeFields(xs[1..]) + rest, acc);
      IgnoresFields(xs[1..], rest, acc);
    }
  }

  /** A newer peer's extra fields, of any wire type, before or after a frame's own, do not disturb it. */
  lemma {:induction false} ForeignFieldsIgnored(f: Frame, before: seq<Field>, behind: seq<Field>)
    requires |f.payload| <= MAX_FRAME_SIZE && AllFit(before, RECURSION_LIMIT) && AllFit(behind, RECURSION_LIMIT)
    requires forall i :: 0 <= i < |before| ==> Foreign(before[i])
    requires forall i :: 0 <= i < |behind| ==> Foreign(behind[i])
    ensures Unmarshal(EncodeFields(before) + (Marshal(f) + EncodeFields(behind))) == Some(f)
  {
    IgnoresFields(before, Marshal(f) + EncodeFields(behind), DEFAULT_FRAME);
    ReadsMarshal(f, EncodeFields(behind), DEFAULT_FRAME);
    IgnoresFields(behind, [], f);
    assert EncodeFields(behind) + [] == EncodeFields(behind);
  }

  // ---- The size of a marshalled frame ----

  function Power(k: nat): nat { if k == 0 then 1 else 128 * Power(k - 1) }

  lemma {:induction false} VarintSize(n: nat, k: nat)
    requires k >= 1 && n < Power(k)
    ensures 1 <= |Varint(n)| <= k
    decreases k
  {
    if n >= 128 {
      VarintSize(n / 128, k - 1);
    }
  }

  /** A frame is at least as long as its payload and at most 16 bytes longer. */
  lemma MarshalSize(f: Frame)
    requires |f.payload| < 0x20_0000
    ensures |f.payload| <= |Marshal(f)| <= |f.payload| + 16
  {
    assert Power(2) == 128 * 128 && Power(3) == 128 * Power(2) && Power(4) == 128 * Power(3) && Power(5) == 128 * Power(4);
    VarintSize(f.cmdId, 5);
    VarintSize(f.seqNo, 5);
    VarintSize(|f.payload|, 3);
    VarintSize(Tag(1, VARINT), 1);
    VarintSize(Tag(2, VARINT), 1);
    VarintSize(Tag(3, LEN), 1);
  }

  lemma MarshalAtLeast(f: Frame)
    ensures |Marshal(f)| >= |f.payload|
  {}

  lemma MarshalEmptyIff(f: Frame)
    ensures Marshal(f) == [] <==> f == DEFAULT_FRAME
  {
    assert |Marshal(f)| == |ScalarField(1, f.cmdId)| + |ScalarField(2, f.seqNo)| + |BytesField(3, f.payload)|;
  }

  // ---------------------------------------------------------------------
  // Packets
  // ---------------------------------------------------------------------

  function BigEndian(n: U32): Bytes { [n / 0x100_0000, n / 0x1_0000 % 256, n / 256 % 256, n % 256] }

  function FromBigEndian(h: Bytes): U32
    requires |h| == HEADER_SIZE
  {
    var a: int, b: int, c: int, d: int := h[0], h[1], h[2], h[3];
    0x100_0000 * a + 0x1_0000 * b + 256 * c + d
  }

  lemma BigEndianRoundTrip(n: U32)
    ensures FromBigEndian(BigEndian(n)) == n
  {
    assert n / 0x1_0000 == 256 * (n / 0x100_0000) + n / 0x1_0000 % 256;
    assert n / 256 == 256 * (n / 0x1_0000) + n / 256 % 256;
  }

  /** The first four bytes are `n`, most significant first. */
  predicate HeaderSays(bs: Bytes, n: int) {
    |bs| >= 4 && 16777216 * (bs[0] as int) + 65536 * (bs[1] as int) + 256 * (bs[2] as int) + bs[3] as int == n
  }

  lemma BigEndianParts(n: U32)
    ensures |BigEndian(n)| == 4 && HeaderSays(BigEndian(n), n)
  {
    BigEndianRoundTrip(n);
  }

  datatype DecodeError = ShortHeader | TooLarge(n: int) | EmptyBody | ShortBody | BadBody

  /** The packet of a frame, or nothing when the body is too large. */
  function Packet(f: Frame): Option<Bytes> {
    if |Marshal(f)| > MAX_FRAME_SIZE then None else Some(BigEndian(|Marshal(f)|) + Marshal(f))
  }

  /** Reads one packet from the front of a stream: the frame and the rest of the stream. */
  function ReadPacket(bs: Bytes): (r: Result<(Frame, Bytes), DecodeError>)
    ensures r.Ok? ==> |r.value.1| < |bs|
  {
    if |bs| < HEADER_SIZE then Err(ShortHeader)
    else
      var n := FromBigEndian(bs[..HEADER_SIZE]);
      var rest := bs[HEADER_SIZE..];
      if n > MAX_FRAME_SIZE then Err(TooLarge(n))
      else if n == 0 then Err(EmptyBody)
      else if |rest| < n then Err(ShortBody)
      else if Unmarshal(rest[..n]).None? then Err(BadBody)
      else Ok((Unmarshal(rest[..n]).value, rest[n..]))
  }

  /** Exactly the frames whose body is at most 65536 bytes have a packet, in particular all with a payload of at most 65520. */
  lemma PacketIff(f: Frame)
    ensures Packet(f).Some? <==> |Marshal(f)| <= 65536
    ensures |f.payload| <= 65520 ==> Packet(f).Some?
    ensures |f.payload| > 65536 ==> Packet(f).None?
  {
    MarshalAtLeast(f);
    if |f.payload| <= 65520 {
      MarshalSize(f);
    }
  }

  /** The header of a packet says how many bytes follow it. */
  lemma PacketHeader(f: Frame)
    ensures Packet(f).Some? ==>
              var bs := Packet(f).value;
              |bs| >= 4 && HeaderSays(bs, |bs| - 4) && |bs| - 4 <= 65536
  {
    if Packet(f).Some? {
      BigEndianParts(|Marshal(f)|);
    }
  }

  /**
   Every frame with a body of at most 65536 bytes has a packet, and it
   round-trips, followed by any bytes and consuming exactly its own, exactly when
   the frame is not the all-default one.
   */
  lemma PacketRoundTripIff(f: Frame, rest: Bytes)
    requires |Marshal(f)| <= 65536
    ensures Packet(f).Some?
    ensures ReadPacket(Packet(f).value + rest) == Ok((f, rest)) <==> f != DEFAULT_FRAME
    ensures f == DEFAULT_FRAME ==> ReadPacket(Packet(f).value + rest) == Err(EmptyBody)
  {
    var body := Marshal(f);
    MarshalAtLeast(f);
    var bs := Packet(f).value + rest;
    assert bs[..HEADER_SIZE] == BigEndian(|body|);
    assert bs[HEADER_SIZE..] == body + rest;
    assert (body + rest)[..|body|] == body && (body + rest)[|body|..] == rest;
    BigEndianRoundTrip(|body|);
    MarshalEmptyIff(f);
    MarshalRoundTrip(f);
  }

  /** What the reading side gets from a stream: frames until the first error. */
  datatype Received = Received(frames: seq<Frame>, stop: DecodeError)

  function ReadAll(bs: Bytes): Received
    decreases |bs|
  {
    var r := ReadPacket(bs);
    if r.Err? then Received([], r.error)
    else
      var more := ReadAll(r.value.1);
      Received([r.value.0] + more.frames, more.stop)
  }

  function Join(items: seq<Bytes>): Bytes {
    if items == [] then [] else items[0] + Join(items[1..])
  }

  lemma {:induction false} JoinFirst(items: seq<Bytes>, rest: Bytes)
    requires items != []
    ensures Join(items) + rest == items[0] + (Join(items[1..]) + rest)
  {}

  /** `item` is the packet of `f`, and `f` is not the frame that the codec cannot carry. */
  predicate Carries(item: Bytes, f: Frame) { Packet(f) == Some(item) && f != DEFAULT_FRAME }

  lemma {:induction false} ReadsCarried(item: Bytes, f: Frame, rest: Bytes)
    requires Carries(item, f)
    ensures ReadAll(item + rest) == Received([f] + ReadAll(rest).frames, ReadAll(rest).stop)
  {
    PacketRoundTripIff(f, rest);
  }

  /** Any concatenation of packets decodes to the same frames, then goes on with what follows. */
  lemma {:induction false} StreamRoundTrip(items: seq<Bytes>, fs: seq<Frame>, rest: Bytes)
    requires |items| == |fs| && forall i :: 0 <= i < |fs| ==> Carries(items[i], fs[i])
    ensures ReadAll(Join(items) + rest) == Received(fs + ReadAll(rest).frames, ReadAll(rest).stop)
  {
    var last := ReadAll(rest);
    if fs == [] {
      assert Join(items) + rest == rest;
      assert fs + last.frames == last.frames;
    } else {
      var tail := Join(items[1..]) + rest;
      calc {
        ReadAll(Join(items) + rest);
        { JoinFirst(items, rest); }
        ReadAll(items[0] + tail);
        { ReadsCarried(items[0], fs[0], tail); }
        Received([fs[0]] + ReadAll(tail).frames, ReadAll(tail).stop);
        { StreamRoundTrip(items[1..], fs[1..], rest); }
        Received([fs[0]] + (fs[1..] + last.frames), last.stop);
        { assert [fs[0]] + (fs[1..] + last.frames) == fs + last.frames; }
        Received(fs + last.frames, last.stop);
      }
    }
  }

  // ---------------------------------------------------------------------
  // The code
  // ---------------------------------------------------------------------

  method PutUint32(buf: array<Byte>, n: U32)
    requires buf.Length >= HEADER_SIZE
    modifies buf
    ensures buf[..HEADER_SIZE] == BigEndian(n) && buf[HEADER_SIZE..] == old(buf[HEADER_SIZE..])
  {
    buf[0] := n / 0x100_0000;
    buf[1] := n / 0x1_0000 % 256;
    buf[2] := n / 256 % 256;
    buf[3] := n % 256;
  }

  /** Lines 91-109: header and body in one buffer. */
  method EncodeRaw(cmdId: U32, seqNo: U32, payload: Bytes) returns (r: Option<Bytes>)
    ensures r == Packet(Frame(cmdId, seqNo, payload))
    ensures |payload| <= 65520 ==> r.Some?
    ensures |payload| > 65536 ==> r.None?
    ensures r.Some? ==> |r.value| >= 4 && HeaderSays(r.value, |r.value| - 4) && |r.value| - 4 <= 65536
  {
    PacketIff(Frame(cmdId, seqNo, payload));
    PacketHeader(Frame(cmdId, seqNo, payload));
    var body := Marshal(Frame(cmdId, seqNo, payload));
    if |body| > MAX_FRAME_SIZE {
      return None;
    }
    var buf := new Byte[HEADER_SIZE + |body|](_ => 0);
    PutUint32(buf, |body|);
    for i := 0 to |body|
      invariant buf[..HEADER_SIZE] == BigEndian(|body|)
      invariant buf[HEADER_SIZE..HEADER_SIZE + i] == body[..i]
    {
      buf[HEADER_SIZE + i] := body[i];
    }
    assert buf[..] == buf[..HEADER_SIZE] + buf[HEADER_SIZE..HEADER_SIZE + |body|];
    assert body[..|body|] == body;
    return Some(buf[..]);
  }

  lemma TwoWrites(data: Bytes, header: Bytes, body: Bytes)
    ensures data + header + body == data + (header + body)
  {}

  /** Bytes on their way to or from a peer. */
  class Stream {
    var data: Bytes

    /** Lines 26-46: header and body in two writes; the same bytes as EncodeRaw. */
    method Encode(f: Frame) returns (ok: bool)
      modifies this
      ensures ok == Packet(f).Some?
      ensures |f.payload| <= 65520 ==> ok
      ensures |f.payload| > 65536 ==> !ok && data == old(data)
      ensures data == old(data) + if ok then Packet(f).value else []
    {
      PacketIff(f);
      var body := Marshal(f);
      if |body| > MAX_FRAME_SIZE {
        return false;
      }
      var header := new Byte[HEADER_SIZE](_ => 0);
      PutUint32(header, |body|);
      assert header[..] == header[..HEADER_SIZE];
      TwoWrites(data, header[..], body);
      data := data + header[..];
      data := data + body;
      return true;
    }

    /** io.ReadFull: `n` bytes, or fewer at the end of the stream. */
    method ReadFull(n: nat) returns (bs: Bytes)
      modifies this
      ensures bs + data == old(data)
      ensures |bs| == if n <= |old(data)| then n else |old(data)|
    {
      var k := if n <= |data| then n else |data|;
      bs, data := data[..k], data[k..];
    }

    /** Lines 49-88: one frame off the stream. */
    method Decode() returns (r: Result<Frame, DecodeError>)
      modifies this
      ensures match ReadPacket(old(data))
              case Ok((f, rest)) => r == Ok(f) && data == rest
              case Err(error) => r == Err(error)
      ensures r == Err(ShortHeader) <==> |old(data)| < 4
      ensures forall n :: HeaderSays(old(data), n) ==>
                && (r == Err(TooLarge(n)) <==> n > 65536)
                && (r == Err(EmptyBody) <==> n == 0)
                && (r == Err(ShortBody) <==> 1 <= n <= 65536 && |old(data)| < 4 + n)
                && (r.Ok? ==> 4 + n <= |old(data)| && data == old(data)[4 + n..])
    {
      ghost var before := data;
      var header := ReadFull(HEADER_SIZE);
      if |header| < HEADER_SIZE {
        return Err(ShortHeader);
      }
      assert header == before[..HEADER_SIZE] && data == before[HEADER_SIZE..];
      var bodyLen := FromBigEndian(header);
      if bodyLen > MAX_FRAME_SIZE {
        return Err(TooLarge(bodyLen));
      }
      if bodyLen == 0 {
        return Err(EmptyBody);
      }
      ghost var afterHeader := data;
      var body := ReadFull(bodyLen);
      if |body| < bodyLen {
        return Err(ShortBody);
      }
      assert body == afterHeader[..bodyLen] && data == afterHeader[bodyLen..];
      var f := Unmarshal(body);
      if f.None? {
        return Err(BadBody);
      }
      return Ok(f.value);
    }
  }
}
