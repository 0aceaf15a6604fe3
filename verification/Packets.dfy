/** Packet bodies: a header, a frame count and the frames (internal/protocol/packet.go). */
module Packets {
  import opened Bytes
  import opened Common
  import opened Frames

  const MAX_FRAMES := 10000
  const HEADER_SIZE := 17

  datatype Header = Header(htype: byte, packetNum: nat)

  datatype Packet = Packet(header: Header, payload: seq<Frame>) {
    predicate Fits() {
      && header.packetNum < U64_LIMIT
      && |payload| < U64_LIMIT
      && FramesFit(payload)
    }
  }

  predicate FramesFit(fs: seq<Frame>) {
    forall i :: 0 <= i < |fs| ==> fs[i].Fits()
  }

  function TotalSize(fs: seq<Frame>): nat {
    if fs == [] then 0 else fs[0].Size() + TotalSize(fs[1..])
  }

  /** Length of the serialised body that carries these frames. */
  function BodyLength(fs: seq<Frame>): nat {
    HEADER_SIZE + TotalSize(fs)
  }

  function SerializeFrames(fs: seq<Frame>): (s: seq<byte>)
    requires FramesFit(fs)
    ensures |s| == TotalSize(fs)
  {
    if fs == [] then [] else Serialize(fs[0]) + SerializeFrames(fs[1..])
  }

  function SerializePacket(p: Packet): (s: seq<byte>)
    requires p.Fits()
    ensures |s| == BodyLength(p.payload)
  {
    [p.header.htype] + (U64(p.header.packetNum) + (U64(|p.payload|) + SerializeFrames(p.payload)))
  }

  /** Removes a leading 4-byte length when it matches what follows it. */
  function StripPrefix(data: seq<byte>): seq<byte> {
    if |data| >= 4 && FromBytes(data[..4]) == |data| - 4 then data[4..] else data
  }

  /** Reads `count` frames. As written, the reader's cursor never leaves the first frame:
      the number of bytes to skip is the difference of two equal readings of the cursor. */
  function ParseFrames(v: Variant, data: seq<byte>, count: nat): (r: Parse<seq<Frame>>)
    ensures r.Parsed? ==> |r.value| == count
    decreases count
  {
    if count == 0 then Parsed([], data)
    else
      var (f, rest) :- ParseFrame(data);
      var (more, end) :- ParseFrames(v, if v.AsWritten? then data else rest, count - 1);
      Parsed([f] + more, end)
  }

  function ParsePacket(v: Variant, data: seq<byte>): Parse<Packet> {
    var (htype, r1) :- ReadByte(data);
    var (num, r2) :- ReadU64(r1);
    var (count, r3) :- ReadU64(r2);
    if count > MAX_FRAMES then Failed
    else
      var (payload, r4) :- ParseFrames(v, r3, count);
      Parsed(Packet(Header(htype, num), payload), r4)
  }

  function DeserializePacket(v: Variant, data: seq<byte>): Option<Packet> {
    var p := ParsePacket(v, StripPrefix(data));
    if p.Failed? then None else Some(p.value)
  }

  // ----- Frame lists -----

  lemma {:induction false} RepairedFramesRoundTrip(fs: seq<Frame>, rest: seq<byte>)
    requires FramesFit(fs)
    ensures ParseFrames(Repaired, SerializeFrames(fs) + rest, |fs|) == Parsed(fs, rest)
  {
    hide Serialize, ParseFrame, Frame.Fits, Frame.Size;
    if fs == [] {
      assert SerializeFrames(fs) + rest == rest;
    } else {
      var tail := SerializeFrames(fs[1..]) + rest;
      PrependAssoc(Serialize(fs[0]), SerializeFrames(fs[1..]), rest);
      assert SerializeFrames(fs) + rest == Serialize(fs[0]) + tail;
      FrameRoundTrip(fs[0], tail);
      RepairedFramesRoundTrip(fs[1..], rest);
      assert [fs[0]] + fs[1..] == fs;
    }
  }

  function Copies(f: Frame, n: nat): (fs: seq<Frame>)
    ensures |fs| == n && forall i :: 0 <= i < n ==> fs[i] == f
  {
    if n == 0 then [] else [f] + Copies(f, n - 1)
  }

  lemma {:induction false} AsWrittenFramesAreCopies(f: Frame, data: seq<byte>, n: nat)
    requires ParseFrame(data).Parsed? && ParseFrame(data).value == f
    ensures ParseFrames(AsWritten, data, n) == Parsed(Copies(f, n), data)
  {
    if n > 0 {
      AsWrittenFramesAreCopies(f, data, n - 1);
    }
  }

  lemma ConsFrames(f: Frame, fs: seq<Frame>)
    requires f.Fits() && FramesFit(fs)
    ensures FramesFit([f] + fs) && TotalSize([f] + fs) == f.Size() + TotalSize(fs)
  {
    assert ([f] + fs)[1..] == fs;
  }

  lemma NoFrames()
    ensures FramesFit([]) && TotalSize([]) == 0
  {
  }

  lemma ParsedFrameSize(data: seq<byte>, f: Frame, rest: seq<byte>)
    requires ParseFrame(data) == Parsed(f, rest)
    ensures f.Fits() && |data| == f.Size() + |rest|
  {
    ParsedFrameSerializes(data);
  }

  lemma {:induction false} RepairedFramesAccountForBytes(data: seq<byte>, n: nat, p: Parse<seq<Frame>>)
    requires p == ParseFrames(Repaired, data, n) && p.Parsed?
    ensures |p.value| == n && FramesFit(p.value)
    ensures |data| == TotalSize(p.value) + |p.rest|
    decreases n
  {
    hide ParseFrame, FramesFit, TotalSize;
    if n == 0 {
      NoFrames();
    } else {
      var f := ParseFrame(data);
      var more := ParseFrames(Repaired, f.rest, n - 1);
      assert more.Parsed? && p.value == [f.value] + more.value && p.rest == more.rest;
      RepairedFramesAccountForBytes(f.rest, n - 1, more);
      ParsedFrameSize(data, f.value, f.rest);
      ConsFrames(f.value, more.value);
    }
  }

  // ----- Packet bodies -----

  /** What a receiver of this commit makes of a frame list: the first frame, as often as there
      were frames. */
  function Received(v: Variant, fs: seq<Frame>): (r: seq<Frame>)
    ensures |r| == |fs|
    ensures forall f :: f in r ==> f in fs
  {
    if v.Repaired? || fs == [] then fs else Copies(fs[0], |fs|)
  }

  lemma SerializedPacketParses(v: Variant, p: Packet)
    requires p.Fits()
    ensures ParsePacket(v, SerializePacket(p)).Parsed? <==> |p.payload| <= MAX_FRAMES
    ensures |p.payload| <= MAX_FRAMES ==>
              ParsePacket(v, SerializePacket(p)).value == Packet(p.header, Received(v, p.payload))
  {
    var frames := SerializeFrames(p.payload);
    var r2 := U64(|p.payload|) + frames;
    var data := SerializePacket(p);
    assert data[1..] == U64(p.header.packetNum) + r2;
    ReadU64Written(p.header.packetNum, r2);
    ReadU64Written(|p.payload|, frames);
    assert frames + [] == frames;
    if v.Repaired? {
      RepairedFramesRoundTrip(p.payload, []);
    } else if p.payload != [] {
      FrameRoundTrip(p.payload[0], SerializeFrames(p.payload[1..]));
      AsWrittenFramesAreCopies(p.payload[0], frames, |p.payload|);
    }
  }

  /** The body happens to look length-prefixed. */
  predicate LooksPrefixed(body: seq<byte>) {
    |body| >= 4 && FromBytes(body[..4]) == |body| - 4
  }

  /** With its own length in front, a body is always unwrapped first: this is the form the packer
      hands to WriteStream. */
  lemma PrefixedPacketDecodes(v: Variant, p: Packet)
    requires p.Fits() && |p.payload| <= MAX_FRAMES && BodyLength(p.payload) < U32_LIMIT
    ensures var body := SerializePacket(p);
            DeserializePacket(v, U32(|body|) + body) == Some(Packet(p.header, Received(v, p.payload)))
  {
    var body := SerializePacket(p);
    Limits();
    FromToBytes(|body|, 4);
    assert (U32(|body|) + body)[..4] == U32(|body|);
    assert (U32(|body|) + body)[4..] == body;
    SerializedPacketParses(v, p);
  }

  lemma BarePacketDecodes(v: Variant, p: Packet)
    requires p.Fits() && |p.payload| <= MAX_FRAMES && !LooksPrefixed(SerializePacket(p))
    ensures DeserializePacket(v, SerializePacket(p)) == Some(Packet(p.header, Received(v, p.payload)))
  {
    SerializedPacketParses(v, p);
  }

  lemma TooManyFramesRefused(v: Variant, p: Packet)
    requires p.Fits() && |p.payload| > MAX_FRAMES && !LooksPrefixed(SerializePacket(p))
    ensures DeserializePacket(v, SerializePacket(p)) == None
  {
    SerializedPacketParses(v, p);
  }

  // ----- When a bare body comes back as the packet it was -----

  /** The length check misfires exactly when the header type and the top of the packet number, read
      as one 4-byte number, happen to be the length of the rest. */
  lemma LooksPrefixedExactly(p: Packet)
    requires p.Fits()
    ensures LooksPrefixed(SerializePacket(p))
       <==> p.header.htype * 0x100_0000 + p.header.packetNum / 0x100_0000_0000 == BodyLength(p.payload) - 4
  {
    var num := p.header.packetNum;
    Limits();
    TopThree(num);
    var top := ToBytes(num / 0x100_0000_0000, 3);
    assert SerializePacket(p)[..4] == [p.header.htype] + U64(num)[..3];
    FromToBytes(num / 0x100_0000_0000, 3);
    LeadingByte(p.header.htype, top);
    assert Limit(3) == 256 * Limit(2) == 0x100_0000;
  }

  lemma TopThree(v: nat)
    requires v < Limit(8)
    ensures v / 0x100_0000_0000 < Limit(3)
    ensures ToBytes(v, 8)[..3] == ToBytes(v / 0x100_0000_0000, 3)
  {
    Limits();
    assert Limit(3) == 256 * Limit(2) == 0x100_0000;
    var v4 := v / 256 / 256 / 256 / 256;
    assert ToBytes(v, 8)[..4] == ToBytes(v4, 4) by {
      assert ToBytes(v, 8)[..6] == ToBytes(v / 256 / 256, 6);
      assert ToBytes(v / 256 / 256, 6)[..4] == ToBytes(v4, 4);
    }
    assert ToBytes(v4, 4)[..3] == ToBytes(v4 / 256, 3);
    assert v4 / 256 == v / 0x100_0000_0000;
  }

  lemma LeadingByte(b: byte, s: seq<byte>)
    requires |s| == 3
    ensures FromBytes([b] + s) == b * 0x100_0000 + FromBytes(s)
  {
    FromBytesSnoc([], s[0]);
    FromBytesSnoc([s[0]], s[1]);
    FromBytesSnoc([s[0], s[1]], s[2]);
    FromBytesSnoc([], b);
    FromBytesSnoc([b], s[0]);
    FromBytesSnoc([b, s[0]], s[1]);
    FromBytesSnoc([b, s[0], s[1]], s[2]);
    hide FromBytes;
    assert s == [s[0], s[1]] + [s[2]] && [s[0]] + [s[1]] == [s[0], s[1]] && [] + [s[0]] == [s[0]];
    assert [b] + s == [b, s[0], s[1]] + [s[2]] && [b, s[0]] + [s[1]] == [b, s[0], s[1]];
    assert [b] + [s[0]] == [b, s[0]] && [] + [b] == [b];
  }

  lemma FromBytesSnoc(s: seq<byte>, x: byte)
    ensures FromBytes(s + [x]) == 256 * FromBytes(s) + x && FromBytes([]) == 0
  {
    assert (s + [x])[..|s|] == s;
  }

  /** A packet number below 2^40 is out of danger as long as the type is 0, which is what the packer
      writes, or the body is shorter than 2^24 + 4 bytes. */
  lemma SmallNumberNeverLooksPrefixed(p: Packet)
    requires p.Fits() && p.header.packetNum < 0x100_0000_0000
    requires p.header.htype == 0 || BodyLength(p.payload) < 0x100_0004
    ensures !LooksPrefixed(SerializePacket(p))
  {
    LooksPrefixedExactly(p);
  }

  /** So within the packer's limit of 1 MiB every packet with such a number reads back from its bare
      body, whatever its type: repaired as itself, as written with its first frame repeated. */
  lemma SmallNumberRoundTrip(v: Variant, p: Packet)
    requires p.Fits() && p.header.packetNum < 0x100_0000_0000
    requires BodyLength(p.payload) <= 1048576 && |p.payload| <= MAX_FRAMES
    ensures DeserializePacket(v, SerializePacket(p)) == Some(Packet(p.header, Received(v, p.payload)))
    ensures v.Repaired? ==> DeserializePacket(v, SerializePacket(p)) == Some(p)
  {
    SmallNumberNeverLooksPrefixed(p);
    BarePacketDecodes(v, p);
  }

  /** Repaired: exactly when there are not too many frames and the body does not look
      length-prefixed. */
  lemma RepairedRoundTripExactly(p: Packet)
    requires p.Fits()
    ensures DeserializePacket(Repaired, SerializePacket(p)) == Some(p)
       <==> |p.payload| <= 10000 && !LooksPrefixed(SerializePacket(p))
  {
    var body := SerializePacket(p);
    if LooksPrefixed(body) {
      var d := ParsePacket(Repaired, body[4..]);
      if d.Parsed? {
        var count := ReadU64(body[4..][1..][8..]);
        RepairedFramesAccountForBytes(count.rest, count.value, ParseFrames(Repaired, count.rest, count.value));
        assert |body| - 4 == HEADER_SIZE + TotalSize(d.value.payload) + |d.rest|;
      }
    } else if |p.payload| > MAX_FRAMES {
      TooManyFramesRefused(Repaired, p);
    } else {
      BarePacketDecodes(Repaired, p);
    }
  }

  /** As written: all its frames must be the same frame as well. */
  lemma AsWrittenRoundTripExactly(p: Packet)
    requires p.Fits()
    ensures DeserializePacket(AsWritten, SerializePacket(p)) == Some(p)
       <==> && |p.payload| <= 10000 && !LooksPrefixed(SerializePacket(p))
            && forall i :: 0 <= i < |p.payload| ==> p.payload[i] == p.payload[0]
  {
    if LooksPrefixed(SerializePacket(p)) {
      UnwrappedIsAnotherPacket(p);
    } else if |p.payload| > MAX_FRAMES {
      TooManyFramesRefused(AsWritten, p);
    } else {
      BarePacketDecodes(AsWritten, p);
      if p.payload != [] && forall i :: 0 <= i < |p.payload| ==> p.payload[i] == p.payload[0] {
        assert Received(AsWritten, p.payload) == p.payload;
      }
    }
  }

  /** Without its first four bytes a body never reads as the packet it was: the frame count then
      ends in the first frame. */
  lemma UnwrappedIsAnotherPacket(p: Packet)
    requires p.Fits()
    ensures var d := ParsePacket(AsWritten, SerializePacket(p)[4..]); d.Parsed? ==> d.value != p
  {
    var body := SerializePacket(p);
    var n := |p.payload|;
    if 0 < n <= MAX_FRAMES && |body| >= HEADER_SIZE + 4 {
      var count := body[4..][1..][8..][..8];
      assert count == body[13..21];
      CountBytes(p);
      hide SerializePacket, ParsePacket, FromBytes;
      Limits();
      LowBytes(n, 4, 8);
      FromToBytes(n, 4);
      assert FromBytes(count[..4]) == n;
      LongerIsMore(count, 4);
    }
  }

  lemma CountBytes(p: Packet)
    requires p.Fits() && BodyLength(p.payload) >= HEADER_SIZE + 4
    ensures SerializePacket(p)[13..21][..4] == U64(|p.payload|)[4..]
  {
    assert SerializePacket(p)[13..17] == U64(|p.payload|)[4..];
  }

  lemma {:induction false} LowBytes(v: nat, k: nat, width: nat)
    requires k <= width && v < Limit(k) && v < Limit(width)
    ensures ToBytes(v, width)[width - k..] == ToBytes(v, k)
  {
    if k > 0 {
      LowBytes(v / 256, k - 1, width - 1);
    }
  }

  lemma {:induction false} LongerIsMore(s: seq<byte>, k: nat)
    requires k < |s| && FromBytes(s[..k]) > 0
    ensures FromBytes(s) > FromBytes(s[..k])
  {
    if k < |s| - 1 {
      assert s[..|s| - 1][..k] == s[..k];
      LongerIsMore(s[..|s| - 1], k);
    }
  }

  /** Two different frames in one packet: the second never arrives. */
  lemma AsWrittenLosesTheSecondFrame()
    ensures var p := Packet(Header(0, 1), [Ping, OpenStream(7)]);
            p.Fits() && DeserializePacket(AsWritten, SerializePacket(p)) == Some(Packet(Header(0, 1), [Ping, Ping]))
  {
    var p := Packet(Header(0, 1), [Ping, OpenStream(7)]);
    SmallNumberRoundTrip(AsWritten, p);
    assert Copies(Ping, 2) == [Ping, Ping];
  }

  // ----- The loops -----

  lemma {:induction false} TotalSizeSnoc(fs: seq<Frame>, f: Frame)
    ensures TotalSize(fs + [f]) == TotalSize(fs) + f.Size()
  {
    if fs == [] {
      assert [f][1..] == [];
    } else {
      TotalSizeSnoc(fs[1..], f);
      assert (fs + [f])[1..] == fs[1..] + [f];
    }
  }

  lemma {:induction false} SerializeFramesSnoc(fs: seq<Frame>, f: Frame)
    requires FramesFit(fs) && f.Fits()
    ensures FramesFit(fs + [f])
    ensures SerializeFrames(fs + [f]) == SerializeFrames(fs) + Serialize(f)
  {
    hide Serialize, Frame.Fits, Frame.Size;
    if fs == [] {
      assert [] + [f] == [f] && [f][1..] == [];
      assert SerializeFrames([f]) == Serialize(f) + [];
    } else {
      SerializeFramesSnoc(fs[1..], f);
      assert (fs + [f])[1..] == fs[1..] + [f];
      PrependAssoc(Serialize(fs[0]), SerializeFrames(fs[1..]), Serialize(f));
    }
  }

  lemma SerializeFramesStep(fs: seq<Frame>, i: nat)
    requires FramesFit(fs) && i < |fs|
    ensures FramesFit(fs[..i]) && FramesFit(fs[..i + 1])
    ensures SerializeFrames(fs[..i + 1]) == SerializeFrames(fs[..i]) + Serialize(fs[i])
  {
    SerializeFramesSnoc(fs[..i], fs[i]);
    assert fs[..i + 1] == fs[..i] + [fs[i]];
  }

  lemma PrependAssoc(a: seq<byte>, b: seq<byte>, c: seq<byte>)
    ensures (a + b) + c == a + (b + c)
  {
  }

  method WritePacket(p: Packet) returns (out: seq<byte>)
    requires p.Fits()
    ensures out == SerializePacket(p)
  {
    out := [p.header.htype] + U64(p.header.packetNum) + U64(|p.payload|);
    ghost var head := out;
    ghost var done: seq<byte> := [];
    for i := 0 to |p.payload|
      invariant FramesFit(p.payload[..i])
      invariant done == SerializeFrames(p.payload[..i])
      invariant out == head + done
    {
      var raw := Serialize(p.payload[i]);
      SerializeFramesStep(p.payload, i);
      PrependAssoc(head, done, raw);
      out := out + raw;
      done := done + raw;
    }
    assert p.payload[..|p.payload|] == p.payload;
    Assoc4([p.header.htype], U64(p.header.packetNum), U64(|p.payload|), done);
  }

  method ReadPacket(input: seq<byte>) returns (result: Option<Packet>)
    ensures result == DeserializePacket(AsWritten, input)
  {
    var data := input;
    if |data| >= 4 {
      var prefixLen := FromBytes(data[..4]);
      if prefixLen == |data| - 4 {
        data := data[4..];
      }
    }
    var htype := ReadByte(data);
    if htype.Failed? { return None; }
    var num := ReadU64(htype.rest);
    if num.Failed? { return None; }
    var count := ReadU64(num.rest);
    if count.Failed? { return None; }
    if count.value > MAX_FRAMES { return None; }
    var cursor := |data| - |count.rest|;
    var payload: seq<Frame> := [];
    for i := 0 to count.value
      invariant cursor == HEADER_SIZE && data[cursor..] == count.rest
      invariant i > 0 ==> ParseFrame(count.rest).Parsed? && payload == Copies(ParseFrame(count.rest).value, i)
      invariant i == 0 ==> payload == []
    {
      var frameStart := |data| - cursor;
      var t := ReadByte(data[cursor..]);
      if t.Failed? { return None; }
      var remaining := data[cursor..];
      var frame := ParseFrame(remaining);
      if frame.Failed? { return None; }
      CopiesSnoc(frame.value, i);
      payload := payload + [frame.value];
      var after := |data| - cursor;
      var skipped := frameStart - after;
      if skipped > 0 {
        cursor := cursor + skipped;
      }
    }
    if count.value > 0 {
      AsWrittenFramesAreCopies(ParseFrame(count.rest).value, count.rest, count.value);
    }
    return Some(Packet(Header(htype.value, num.value), payload));
  }

  lemma {:induction false} CopiesSnoc(f: Frame, n: nat)
    ensures Copies(f, n) + [f] == Copies(f, n + 1)
  {
    if n > 0 {
      CopiesSnoc(f, n - 1);
    }
  }
}
