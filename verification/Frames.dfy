/** The eight frame kinds and their wire form (internal/protocol/frame.go). */
module Frames {
  import opened Bytes

  datatype AckRange = AckRange(smallest: nat, largest: nat)

  /** Integer fields are unbounded here; `Fits` says that they are values of the 64-bit fields. */
  datatype Frame =
    | Stream(streamId: nat, offset: nat, fin: bool, data: seq<byte>)
    | Ack(largestAcked: nat, ackDelay: nat, ranges: seq<AckRange>)
    | Ping
    | AddPath(address: seq<byte>)
    | AddPathResp(pathId: nat, address: seq<byte>)
    | RelayData(relayPathId: nat, destStreamId: nat, rawData: seq<byte>)
    | OpenStream(streamId: nat)
    | OpenStreamResp(streamId: nat, success: bool)
  {
    predicate Fits() {
      match this
      case Stream(id, o, _, d) => id < U64_LIMIT && o < U64_LIMIT && |d| < U64_LIMIT
      case Ack(l, d, rs) => l < U64_LIMIT && d < U64_LIMIT && |rs| < U64_LIMIT && RangesFit(rs)
      case Ping => true
      case AddPath(a) => |a| < U64_LIMIT
      case AddPathResp(p, a) => p < U64_LIMIT && |a| < U64_LIMIT
      case RelayData(p, s, d) => p < U64_LIMIT && s < U64_LIMIT && |d| < U64_LIMIT
      case OpenStream(id) => id < U64_LIMIT
      case OpenStreamResp(id, _) => id < U64_LIMIT
    }

    function TypeByte(): byte {
      match this
      case Stream(_, _, _, _) => 0x1
      case Ack(_, _, _) => 0x2
      case Ping => 0x5
      case AddPath(_) => 0x6
      case AddPathResp(_, _) => 0x7
      case RelayData(_, _, _) => 0x8
      case OpenStream(_) => 0x9
      case OpenStreamResp(_, _) => 0xA
    }

    /** Number of bytes of the frame on the wire. */
    function Size(): nat {
      match this
      case Stream(_, _, _, d) => 26 + |d|
      case Ack(_, _, rs) => 25 + 16 * |rs|
      case Ping => 1
      case AddPath(a) => 9 + |a|
      case AddPathResp(_, a) => 17 + |a|
      case RelayData(_, _, d) => 25 + |d|
      case OpenStream(_) => 9
      case OpenStreamResp(_, _) => 10
    }
  }

  predicate RangesFit(rs: seq<AckRange>) {
    forall i :: 0 <= i < |rs| ==> rs[i].smallest < U64_LIMIT && rs[i].largest < U64_LIMIT
  }

  function Flag(b: bool): byte {
    if b then 1 else 0
  }

  function SerializeRanges(rs: seq<AckRange>): (s: seq<byte>)
    requires RangesFit(rs)
    ensures |s| == 16 * |rs|
  {
    if rs == [] then []
    else U64(rs[0].smallest) + U64(rs[0].largest) + SerializeRanges(rs[1..])
  }

  /** Everything after the type byte. */
  function Body(f: Frame): (s: seq<byte>)
    requires f.Fits()
    ensures |s| == f.Size() - 1
  {
    match f
    case Stream(id, o, fin, d) => U64(id) + (U64(o) + ([Flag(fin)] + (U64(|d|) + d)))
    case Ack(l, delay, rs) => U64(l) + (U64(delay) + (U64(|rs|) + SerializeRanges(rs)))
    case Ping => []
    case AddPath(a) => U64(|a|) + a
    case AddPathResp(p, a) => U64(p) + (U64(|a|) + a)
    case RelayData(p, id, d) => U64(p) + (U64(id) + (U64(|d|) + d))
    case OpenStream(id) => U64(id)
    case OpenStreamResp(id, ok) => U64(id) + [Flag(ok)]
  }

  function Serialize(f: Frame): (s: seq<byte>)
    requires f.Fits()
    ensures |s| == f.Size()
  {
    [f.TypeByte()] + Body(f)
  }

  function ParseRanges(data: seq<byte>, count: nat): Parse<seq<AckRange>> {
    if count == 0 then Parsed([], data)
    else
      var (small, r1) :- ReadU64(data);
      var (large, r2) :- ReadU64(r1);
      var (more, r3) :- ParseRanges(r2, count - 1);
      Parsed([AckRange(small, large)] + more, r3)
  }

  /** A length-prefixed byte string, as every variable field is read. */
  function ParseBytes(data: seq<byte>): Parse<seq<byte>> {
    var (n, r) :- ReadU64(data);
    ReadFull(r, n)
  }

  function ParseStream(data: seq<byte>): Parse<Frame> {
    var (id, r1) :- ReadU64(data);
    var (o, r2) :- ReadU64(r1);
    var (fin, r3) :- ReadByte(r2);
    var (d, r4) :- ParseBytes(r3);
    Parsed(Stream(id, o, fin == 1, d), r4)
  }

  function ParseAck(data: seq<byte>): Parse<Frame> {
    var (largest, r1) :- ReadU64(data);
    var (delay, r2) :- ReadU64(r1);
    var (count, r3) :- ReadU64(r2);
    var (ranges, r4) :- ParseRanges(r3, count);
    Parsed(Ack(largest, delay, ranges), r4)
  }

  function ParseAddPathResp(data: seq<byte>): Parse<Frame> {
    var (p, r1) :- ReadU64(data);
    var (a, r2) :- ParseBytes(r1);
    Parsed(AddPathResp(p, a), r2)
  }

  function ParseRelayData(data: seq<byte>): Parse<Frame> {
    var (p, r1) :- ReadU64(data);
    var (id, r2) :- ReadU64(r1);
    var (d, r3) :- ParseBytes(r2);
    Parsed(RelayData(p, id, d), r3)
  }

  /** The dispatch of ParseFrame, keeping the bytes that were not consumed. */
  function ParseFrame(data: seq<byte>): Parse<Frame> {
    var (t, body) :- ReadByte(data);
    if t == 0x1 then ParseStream(body)
    else if t == 0x2 then ParseAck(body)
    else if t == 0x5 then Parsed(Ping, body)
    else if t == 0x6 then
      var (a, r) :- ParseBytes(body);
      Parsed(AddPath(a), r)
    else if t == 0x7 then ParseAddPathResp(body)
    else if t == 0x8 then ParseRelayData(body)
    else if t == 0x9 then
      var (id, r) :- ReadU64(body);
      Parsed(OpenStream(id), r)
    else if t == 0xA then
      var (id, r1) :- ReadU64(body);
      var (ok, r2) :- ReadByte(r1);
      Parsed(OpenStreamResp(id, ok == 1), r2)
    else Failed
  }

  // ----- Parsing undoes serialising, whatever bytes follow -----

  lemma {:induction false} ParseRangesWritten(rs: seq<AckRange>, rest: seq<byte>)
    requires RangesFit(rs)
    ensures ParseRanges(SerializeRanges(rs) + rest, |rs|) == Parsed(rs, rest)
  {
    if rs == [] {
      assert SerializeRanges(rs) + rest == rest;
    } else {
      var tail := SerializeRanges(rs[1..]) + rest;
      Assoc4(U64(rs[0].smallest), U64(rs[0].largest), SerializeRanges(rs[1..]), rest);
      ReadU64Written(rs[0].smallest, U64(rs[0].largest) + tail);
      ReadU64Written(rs[0].largest, tail);
      ParseRangesWritten(rs[1..], rest);
      assert [AckRange(rs[0].smallest, rs[0].largest)] + rs[1..] == rs;
    }
  }

  lemma ParseBytesWritten(d: seq<byte>, rest: seq<byte>)
    requires |d| < U64_LIMIT
    ensures ParseBytes((U64(|d|) + d) + rest) == Parsed(d, rest)
  {
    assert (U64(|d|) + d) + rest == U64(|d|) + (d + rest);
    ReadU64Written(|d|, d + rest);
    ReadFullWritten(d, rest);
  }

  /** One fixed field in front of an already framed remainder. */
  lemma Field(v: nat, inner: seq<byte>, rest: seq<byte>)
    requires v < U64_LIMIT
    ensures ReadU64((U64(v) + inner) + rest) == Parsed(v, inner + rest)
  {
    assert (U64(v) + inner) + rest == U64(v) + (inner + rest);
    ReadU64Written(v, inner + rest);
  }

  lemma ByteField(b: byte, inner: seq<byte>, rest: seq<byte>)
    ensures ReadByte(([b] + inner) + rest) == Parsed(b, inner + rest)
  {
    assert ([b] + inner) + rest == [b] + (inner + rest);
  }

  lemma FrameRoundTrip(f: Frame, rest: seq<byte>)
    requires f.Fits()
    ensures ParseFrame(Serialize(f) + rest) == Parsed(f, rest)
  {
    ByteField(f.TypeByte(), Body(f), rest);
    match f
    case Stream(id, o, fin, d) =>
      var r3 := U64(|d|) + d;
      var r2 := [Flag(fin)] + r3;
      Field(id, U64(o) + r2, rest);
      Field(o, r2, rest);
      ByteField(Flag(fin), r3, rest);
      ParseBytesWritten(d, rest);
    case Ack(l, delay, rs) =>
      var r2 := U64(|rs|) + SerializeRanges(rs);
      Field(l, U64(delay) + r2, rest);
      Field(delay, r2, rest);
      Field(|rs|, SerializeRanges(rs), rest);
      ParseRangesWritten(rs, rest);
    case Ping =>
      assert [] + rest == rest;
    case AddPath(a) =>
      ParseBytesWritten(a, rest);
    case AddPathResp(p, a) =>
      Field(p, U64(|a|) + a, rest);
      ParseBytesWritten(a, rest);
    case RelayData(p, id, d) =>
      Field(p, U64(id) + (U64(|d|) + d), rest);
      Field(id, U64(|d|) + d, rest);
      ParseBytesWritten(d, rest);
    case OpenStream(id) =>
      ReadU64Written(id, rest);
    case OpenStreamResp(id, ok) =>
      Field(id, [Flag(ok)], rest);
      assert [Flag(ok)] + [] == [Flag(ok)];
      ByteField(Flag(ok), [], rest);
      assert [] + rest == rest;
  }

  // ----- And serialising undoes parsing, except for the two flag bytes -----

  /** Position of the byte that a frame of this type reads as a boolean. */
  function FlagPosition(f: Frame): nat {
    match f
    case Stream(_, _, _, _) => 17
    case OpenStreamResp(_, _) => 9
    case _ => 0
  }

  /** Every byte other than 1 reads as false, but only 0 is ever written for it. */
  predicate CanonicalFlag(data: seq<byte>, f: Frame) {
    FlagPosition(f) == 0 || (FlagPosition(f) < |data| && data[FlagPosition(f)] <= 1)
  }

  lemma Assoc4(a: seq<byte>, b: seq<byte>, c: seq<byte>, d: seq<byte>)
    ensures ((a + b) + c) + d == a + (b + (c + d))
  {
  }

  lemma {:induction false} ParsedRangesSerialize(data: seq<byte>, count: nat)
    requires ParseRanges(data, count).Parsed?
    ensures var p := ParseRanges(data, count);
            |p.value| == count && RangesFit(p.value) && SerializeRanges(p.value) + p.rest == data
  {
    if count == 0 {
      assert SerializeRanges([]) + data == data;
    } else {
      var small := ReadU64(data);
      var large := ReadU64(small.rest);
      U64OfRead(data);
      U64OfRead(small.rest);
      ParsedRangesSerialize(large.rest, count - 1);
      var p := ParseRanges(data, count);
      var more := ParseRanges(large.rest, count - 1);
      assert p.value[1..] == more.value;
      Assoc4(U64(small.value), U64(large.value), SerializeRanges(more.value), more.rest);
    }
  }

  lemma ParsedBytesSerialize(data: seq<byte>)
    requires ParseBytes(data).Parsed?
    ensures var p := ParseBytes(data);
            |p.value| < U64_LIMIT && (U64(|p.value|) + p.value) + p.rest == data
  {
    U64OfRead(data);
    var n := ReadU64(data);
    var p := ParseBytes(data);
    assert p.value + p.rest == n.rest;
    assert (U64(|p.value|) + p.value) + p.rest == U64(|p.value|) + (p.value + p.rest);
  }

  /** Reassembles one fixed field with what was parsed after it. */
  lemma Refield(data: seq<byte>, inner: seq<byte>, rest: seq<byte>)
    requires |data| >= 8
    requires inner + rest == ReadU64(data).rest
    ensures (U64(ReadU64(data).value) + inner) + rest == data
  {
    U64OfRead(data);
    var v := U64(ReadU64(data).value);
    assert (v + inner) + rest == v + (inner + rest);
  }

  lemma ParsedAckBody(data: seq<byte>)
    requires ParseAck(data).Parsed?
    ensures var p := ParseAck(data);
            p.value.Fits() && Body(p.value) + p.rest == data
  {
    var p := ParseAck(data);
    var r1 := ReadU64(data).rest;
    var r2 := ReadU64(r1).rest;
    var count := ReadU64(r2);
    ParsedRangesSerialize(count.rest, count.value);
    var ranges := SerializeRanges(p.value.ranges);
    Refield(r2, ranges, p.rest);
    Refield(r1, U64(count.value) + ranges, p.rest);
    Refield(data, U64(p.value.ackDelay) + (U64(count.value) + ranges), p.rest);
  }

  lemma ParsedAddPathRespBody(data: seq<byte>)
    requires ParseAddPathResp(data).Parsed?
    ensures var p := ParseAddPathResp(data);
            p.value.Fits() && Body(p.value) + p.rest == data
  {
    var p := ParseAddPathResp(data);
    ParsedBytesSerialize(ReadU64(data).rest);
    Refield(data, U64(|p.value.address|) + p.value.address, p.rest);
  }

  lemma ParsedRelayDataBody(data: seq<byte>)
    requires ParseRelayData(data).Parsed?
    ensures var p := ParseRelayData(data);
            p.value.Fits() && Body(p.value) + p.rest == data
  {
    var p := ParseRelayData(data);
    var r1 := ReadU64(data).rest;
    ParsedBytesSerialize(ReadU64(r1).rest);
    var d := U64(|p.value.rawData|) + p.value.rawData;
    Refield(r1, d, p.rest);
    Refield(data, U64(p.value.destStreamId) + d, p.rest);
  }

  /** A body with a flag byte: equal to what would be written exactly when that byte is. */
  lemma FlagBody(head: seq<byte>, flag: byte, tail: seq<byte>, data: seq<byte>)
    requires data == head + ([flag] + tail)
    ensures data[|head|] == flag
    ensures head + ([Flag(flag == 1)] + tail) == data <==> flag <= 1
  {
    assert (head + ([Flag(flag == 1)] + tail))[|head|] == Flag(flag == 1);
  }

  lemma ParsedStreamBody(data: seq<byte>)
    requires ParseStream(data).Parsed?
    ensures var p := ParseStream(data);
            && p.value.Stream?
            && p.value.Fits()
            && |data| == p.value.Size() - 1 + |p.rest|
            && (Body(p.value) + p.rest == data <==> data[16] <= 1)
  {
    var id := ReadU64(data);
    var o := ReadU64(id.rest);
    var flag, r3 := o.rest[0], o.rest[1..];
    var d := ParseBytes(r3);
    ParsedBytesSerialize(r3);
    StreamBodyFlag(data, id.value, o.value, flag, d.value, d.rest) by {
      U64OfRead(data);
      U64OfRead(id.rest);
      assert o.rest == [flag] + r3;
    }
  }

  lemma StreamBodyFlag(data: seq<byte>, id: nat, o: nat, flag: byte, d: seq<byte>, rest: seq<byte>)
    requires Stream(id, o, flag == 1, d).Fits()
    requires data == U64(id) + (U64(o) + ([flag] + ((U64(|d|) + d) + rest)))
    ensures |data| == 25 + |d| + |rest| && data[16] == flag
    ensures Body(Stream(id, o, flag == 1, d)) + rest == data <==> flag <= 1
  {
    var tail := (U64(|d|) + d) + rest;
    var head := U64(id) + U64(o);
    assert data == head + ([flag] + tail);
    FlagBody(head, flag, tail, data);
    var fb := [Flag(flag == 1)];
    assert (U64(id) + (U64(o) + (fb + (U64(|d|) + d)))) + rest == head + (fb + tail);
  }

  lemma ParsedOpenRespBody(data: seq<byte>)
    requires |data| >= 9
    ensures var f := OpenStreamResp(ReadU64(data).value, data[8] == 1);
            Body(f) + data[9..] == data <==> data[8] <= 1
  {
    var f := OpenStreamResp(ReadU64(data).value, data[8] == 1);
    U64OfRead(data);
    assert data == U64(f.streamId) + ([data[8]] + data[9..]);
    FlagBody(U64(f.streamId), data[8], data[9..], data);
    assert Body(f) + data[9..] == U64(f.streamId) + ([Flag(f.success)] + data[9..]);
  }

  lemma ConsInjective(x: byte, a: seq<byte>, b: seq<byte>)
    ensures [x] + a == [x] + b <==> a == b
  {
    assert ([x] + a)[1..] == a && ([x] + b)[1..] == b;
  }

  /** Putting the type byte back. */
  lemma WithType(data: seq<byte>, f: Frame, rest: seq<byte>)
    requires data != [] && f.Fits() && f.TypeByte() == data[0]
    ensures Serialize(f) + rest == data <==> Body(f) + rest == data[1..]
  {
    ConsInjective(data[0], Body(f) + rest, data[1..]);
    assert data == [data[0]] + data[1..];
    var body := Body(f);
    assert ([data[0]] + body) + rest == [data[0]] + (body + rest);
  }

  /** What was parsed accounts for every consumed byte, and serialises back to those bytes exactly
      when its flag byte, if it has one, was 0 or 1. */
  lemma ParsedFrameSerializes(data: seq<byte>)
    requires ParseFrame(data).Parsed?
    ensures var p := ParseFrame(data);
            && p.value.Fits()
            && |data| == p.value.Size() + |p.rest|
            && (Serialize(p.value) + p.rest == data <==> CanonicalFlag(data, p.value))
  {
    var p := ParseFrame(data);
    if data[0] == 0x1 {
      ParsedStreamBody(data[1..]);
      WithType(data, p.value, p.rest);
    } else if data[0] == 0xA {
      ParsedOpenRespBody(data[1..]);
      WithType(data, p.value, p.rest);
    } else {
      ParsedUnflaggedBody(data);
      WithType(data, p.value, p.rest);
      assert |Serialize(p.value) + p.rest| == |data|;
    }
  }

  lemma ParsedUnflaggedBody(data: seq<byte>)
    requires ParseFrame(data).Parsed? && data[0] != 0x1 && data[0] != 0xA
    ensures var p := ParseFrame(data);
            && p.value.Fits() && p.value.TypeByte() == data[0]
            && Body(p.value) + p.rest == data[1..]
  {
    var body := data[1..];
    var p := ParseFrame(data);
    if data[0] == 0x2 {
      ParsedAckBody(body);
    } else if data[0] == 0x5 {
      assert Body(p.value) + p.rest == body;
    } else if data[0] == 0x6 {
      ParsedBytesSerialize(body);
    } else if data[0] == 0x7 {
      ParsedAddPathRespBody(body);
    } else if data[0] == 0x8 {
      ParsedRelayDataBody(body);
    } else {
      U64OfRead(body);
    }
  }

  // ----- The loops over ACK ranges -----

  lemma {:induction false} SerializeRangesSnoc(rs: seq<AckRange>, r: AckRange)
    requires RangesFit(rs) && r.smallest < U64_LIMIT && r.largest < U64_LIMIT
    ensures RangesFit(rs + [r])
    ensures SerializeRanges(rs + [r]) == SerializeRanges(rs) + U64(r.smallest) + U64(r.largest)
  {
    if rs == [] {
      assert SerializeRanges([r]) == U64(r.smallest) + U64(r.largest) + SerializeRanges([r][1..]);
    } else {
      SerializeRangesSnoc(rs[1..], r);
      assert (rs + [r])[1..] == rs[1..] + [r];
    }
  }

  lemma Append3(head: seq<byte>, s: seq<byte>, a: seq<byte>, b: seq<byte>)
    ensures (head + s) + a + b == head + (s + a + b)
  {
  }

  lemma AckFields(t: seq<byte>, l: seq<byte>, d: seq<byte>, n: seq<byte>, rs: seq<byte>)
    ensures (t + l + d + n) + rs == t + (l + (d + (n + rs)))
  {
  }

  method SerializeAck(f: Frame) returns (out: seq<byte>)
    requires f.Ack? && f.Fits()
    ensures out == Serialize(f)
  {
    var rs := f.ranges;
    out := [f.TypeByte()] + U64(f.largestAcked) + U64(f.ackDelay) + U64(|rs|);
    ghost var head := out;
    ghost var done: seq<byte> := [];
    for i := 0 to |rs|
      invariant RangesFit(rs[..i])
      invariant done == SerializeRanges(rs[..i])
      invariant out == head + done
    {
      var r := rs[i];
      SerializeRangesSnoc(rs[..i], r);
      assert rs[..i + 1] == rs[..i] + [r];
      Append3(head, done, U64(r.smallest), U64(r.largest));
      out := out + U64(r.smallest) + U64(r.largest);
      done := done + U64(r.smallest) + U64(r.largest);
    }
    assert rs[..|rs|] == rs;
    AckFields([f.TypeByte()], U64(f.largestAcked), U64(f.ackDelay), U64(|rs|), SerializeRanges(rs));
  }

  lemma {:induction false} ParseRangesSplit(data: seq<byte>, done: nat, count: nat)
    requires done <= count
    ensures var first := ParseRanges(data, done);
            ParseRanges(data, count) ==
            if first.Failed? then Failed
            else var second := ParseRanges(first.rest, count - done);
                 if second.Failed? then Failed else Parsed(first.value + second.value, second.rest)
  {
    if done == 0 {
      var p := ParseRanges(data, count);
      if p.Parsed? {
        assert [] + p.value == p.value;
      }
    } else {
      var small := ReadU64(data);
      if small.Parsed? && ReadU64(small.rest).Parsed? {
        var r := ReadU64(small.rest).rest;
        ParseRangesSplit(r, done - 1, count - 1);
        var a := AckRange(small.value, ReadU64(small.rest).value);
        var first := ParseRanges(r, done - 1);
        if first.Parsed? && ParseRanges(first.rest, count - done).Parsed? {
          var second := ParseRanges(first.rest, count - done);
          assert ([a] + first.value) + second.value == [a] + (first.value + second.value);
        }
      }
    }
  }

  method ParseAckFrame(data: seq<byte>) returns (result: Parse<Frame>)
    ensures result == ParseAck(data)
  {
    var largest := ReadU64(data);
    if largest.Failed? { return Failed; }
    var delay := ReadU64(largest.rest);
    if delay.Failed? { return Failed; }
    var count := ReadU64(delay.rest);
    if count.Failed? { return Failed; }
    var ranges: seq<AckRange> := [];
    var r := count.rest;
    for i := 0 to count.value
      invariant ParseRanges(count.rest, i) == Parsed(ranges, r)
    {
      ParseRangesSplit(count.rest, i, i + 1);
      ParseRangesSplit(count.rest, i + 1, count.value);
      ghost var next := ParseRanges(r, 1);
      var small := ReadU64(r);
      if small.Failed? { return Failed; }
      var large := ReadU64(small.rest);
      if large.Failed? { return Failed; }
      assert ParseRanges(large.rest, 0) == Parsed([], large.rest);
      assert [AckRange(small.value, large.value)] + [] == [AckRange(small.value, large.value)];
      assert next == Parsed([AckRange(small.value, large.value)], large.rest);
      ranges := ranges + [AckRange(small.value, large.value)];
      r := large.rest;
    }
    return Parsed(Ack(largest.value, delay.value, ranges), r);
  }
}
