/** The bytes on the wire, position by position: what a peer that shares no code with this program has
    to write and expects to read (internal/protocol/frame.go, internal/protocol/packet.go,
    internal/transport/path.go and examples/file_transfer). */
module WireImages {
  import opened Bytes
  import opened Frames
  import opened Framing
  import opened Packets
  import opened Transfer

  function At(s: seq<byte>, i: nat): nat
    requires i < |s|
  {
    s[i]
  }

  /** The eight bytes from `at` on are this number, most significant first. */
  predicate U64At(s: seq<byte>, at: nat, v: nat) {
    at + 8 <= |s| &&
    v == At(s, at) * 0x100_0000_0000_0000 + At(s, at + 1) * 0x1_0000_0000_0000 + At(s, at + 2) * 0x100_0000_0000
         + At(s, at + 3) * 0x1_0000_0000 + At(s, at + 4) * 0x100_0000 + At(s, at + 5) * 0x1_0000
         + At(s, at + 6) * 0x100 + At(s, at + 7)
  }

  predicate U32At(s: seq<byte>, at: nat, v: nat) {
    at + 4 <= |s| &&
    v == At(s, at) * 0x100_0000 + At(s, at + 1) * 0x1_0000 + At(s, at + 2) * 0x100 + At(s, at + 3)
  }

  lemma NextByte(s: seq<byte>, k: nat)
    requires k < |s|
    ensures FromBytes(s[..k + 1]) == 256 * FromBytes(s[..k]) + s[k]
    ensures FromBytes(s[..0]) == 0
  {
    assert s[..k + 1][..k] == s[..k];
  }

  lemma FourBytes(s: seq<byte>)
    requires |s| == 4
    ensures U32At(s, 0, FromBytes(s))
  {
    NextByte(s, 0);
    NextByte(s, 1);
    NextByte(s, 2);
    NextByte(s, 3);
    assert s[..4] == s;
  }

  lemma EightBytes(s: seq<byte>)
    requires |s| == 8
    ensures U64At(s, 0, FromBytes(s))
  {
    hide FromBytes;
    NextByte(s, 0);
    NextByte(s, 1);
    NextByte(s, 2);
    NextByte(s, 3);
    NextByte(s, 4);
    NextByte(s, 5);
    NextByte(s, 6);
    NextByte(s, 7);
    assert s[..8] == s;
  }

  /** A printed number stands where the bytes before it end. */
  lemma U64Stands(before: seq<byte>, v: nat, rest: seq<byte>)
    requires v < U64_LIMIT
    ensures U64At(before + (U64(v) + rest), |before|, v)
  {
    Limits();
    FromToBytes(v, 8);
    EightBytes(U64(v));
    var s := before + (U64(v) + rest);
    assert forall i :: 0 <= i < 8 ==> s[|before| + i] == U64(v)[i];
    hide U64;
  }

  lemma U32Stands(before: seq<byte>, v: nat, rest: seq<byte>)
    requires v < U32_LIMIT
    ensures U32At(before + (U32(v) + rest), |before|, v)
  {
    Limits();
    FromToBytes(v, 4);
    FourBytes(U32(v));
    var s := before + (U32(v) + rest);
    assert forall i :: 0 <= i < 4 ==> s[|before| + i] == U32(v)[i];
    hide U32;
  }

  // ----- Frames -----

  /** Each kind has its number, and each field its place. */
  predicate Image(f: Frame, s: seq<byte>) {
    s != [] &&
    match f
    case Stream(id, o, fin, d) =>
      && |s| == 26 + |d| && s[0] == 0x1 && U64At(s, 1, id) && U64At(s, 9, o)
      && s[17] == (if fin then 1 else 0) && U64At(s, 18, |d|) && s[26..] == d
    case Ack(largest, delay, rs) =>
      && |s| == 25 + 16 * |rs| && s[0] == 0x2 && U64At(s, 1, largest) && U64At(s, 9, delay) && U64At(s, 17, |rs|)
      && RangesAt(s, 25, rs)
    case Ping => s == [0x5]
    case AddPath(a) => |s| == 9 + |a| && s[0] == 0x6 && U64At(s, 1, |a|) && s[9..] == a
    case AddPathResp(p, a) =>
      |s| == 17 + |a| && s[0] == 0x7 && U64At(s, 1, p) && U64At(s, 9, |a|) && s[17..] == a
    case RelayData(p, id, d) =>
      && |s| == 25 + |d| && s[0] == 0x8 && U64At(s, 1, p) && U64At(s, 9, id) && U64At(s, 17, |d|) && s[25..] == d
    case OpenStream(id) => |s| == 9 && s[0] == 0x9 && U64At(s, 1, id)
    case OpenStreamResp(id, ok) => |s| == 10 && s[0] == 0xA && U64At(s, 1, id) && s[9] == (if ok then 1 else 0)
  }

  /** Smallest and largest of each range, 16 bytes a range. */
  predicate RangesAt(s: seq<byte>, at: nat, rs: seq<AckRange>) {
    forall i :: 0 <= i < |rs| ==>
                  U64At(s, at + 16 * i, rs[i].smallest) && U64At(s, at + 16 * i + 8, rs[i].largest)
  }

  lemma Shifted(before: seq<byte>, s: seq<byte>, at: nat, v: nat)
    requires U64At(s, at, v)
    ensures U64At(before + s, |before| + at, v)
  {
    var t := before + s;
    assert forall i :: at <= i < at + 8 ==> s[i] == t[|before| + i];
  }

  lemma {:induction false} RangesStand(rs: seq<AckRange>)
    requires RangesFit(rs)
    ensures RangesAt(SerializeRanges(rs), 0, rs)
  {
    hide U64At;
    if rs != [] {
      var more := SerializeRanges(rs[1..]);
      RangesStand(rs[1..]);
      forall i | 0 <= i < |rs|
        ensures U64At(SerializeRanges(rs), 16 * i, rs[i].smallest)
        ensures U64At(SerializeRanges(rs), 16 * i + 8, rs[i].largest)
      {
        if i == 0 {
          FirstRange(rs[0], more);
        } else {
          assert rs[1..][i - 1] == rs[i];
          Shifted(U64(rs[0].smallest) + U64(rs[0].largest), more, 16 * (i - 1), rs[i].smallest);
          Shifted(U64(rs[0].smallest) + U64(rs[0].largest), more, 16 * (i - 1) + 8, rs[i].largest);
        }
      }
    }
  }

  lemma FirstRange(r: AckRange, more: seq<byte>)
    requires r.smallest < U64_LIMIT && r.largest < U64_LIMIT
    ensures var s := U64(r.smallest) + U64(r.largest) + more; U64At(s, 0, r.smallest) && U64At(s, 8, r.largest)
  {
    var small, large := U64(r.smallest), U64(r.largest);
    hide U64At;
    assert small + large + more == [] + (small + (large + more)) && small + large + more == small + (large + more);
    U64Stands([], r.smallest, large + more);
    U64Stands(small, r.largest, more);
  }

  /** Every serialised frame has its image, byte for byte. */
  lemma FrameImage(f: Frame)
    requires f.Fits()
    ensures Image(f, Serialize(f))
  {
    match f
    case Stream(id, o, fin, d) => StreamImage(f);
    case Ack(largest, delay, rs) => AckImage(f);
    case Ping =>
    case AddPath(a) => AddPathImage(f);
    case AddPathResp(p, a) => AddPathRespImage(f);
    case RelayData(p, id, d) => RelayImage(f);
    case OpenStream(id) => OpenImage(f);
    case OpenStreamResp(id, ok) => OpenRespImage(f);
  }

  lemma AddPathImage(f: Frame)
    requires f.AddPath? && f.Fits()
    ensures Image(f, Serialize(f))
  {
    U64Stands([0x6], |f.address|, f.address);
    hide U64At;
  }

  lemma AddPathRespImage(f: Frame)
    requires f.AddPathResp? && f.Fits()
    ensures Image(f, Serialize(f))
  {
    var a := f.address;
    U64Stands([0x7], f.pathId, U64(|a|) + a);
    U64Stands([0x7] + U64(f.pathId), |a|, a);
    assert Serialize(f) == ([0x7] + U64(f.pathId)) + (U64(|a|) + a);
    hide U64At;
  }

  lemma OpenImage(f: Frame)
    requires f.OpenStream? && f.Fits()
    ensures Image(f, Serialize(f))
  {
    U64Stands([0x9], f.streamId, []);
    assert U64(f.streamId) + [] == U64(f.streamId);
    hide U64At;
  }

  lemma OpenRespImage(f: Frame)
    requires f.OpenStreamResp? && f.Fits()
    ensures Image(f, Serialize(f))
  {
    U64Stands([0xA], f.streamId, [Flag(f.success)]);
    hide U64At;
  }

  lemma StreamImage(f: Frame)
    requires f.Stream? && f.Fits()
    ensures Image(f, Serialize(f))
  {
    var s, d := Serialize(f), f.data;
    var head := [0x1] + U64(f.streamId);
    var more := [Flag(f.fin)] + (U64(|d|) + d);
    U64Stands([0x1], f.streamId, U64(f.offset) + more);
    U64Stands(head, f.offset, more);
    assert s == head + (U64(f.offset) + more);
    var front := head + U64(f.offset) + [Flag(f.fin)];
    U64Stands(front, |d|, d);
    assert s == front + (U64(|d|) + d);
  }

  lemma AckImage(f: Frame)
    requires f.Ack? && f.Fits()
    ensures Image(f, Serialize(f))
  {
    hide U64At, SerializeRanges;
    var s, rs := Serialize(f), f.ranges;
    var ranges := SerializeRanges(rs);
    var head := [0x2] + U64(f.largestAcked);
    U64Stands([0x2], f.largestAcked, U64(f.ackDelay) + (U64(|rs|) + ranges));
    U64Stands(head, f.ackDelay, U64(|rs|) + ranges);
    assert s == head + (U64(f.ackDelay) + (U64(|rs|) + ranges));
    U64Stands(head + U64(f.ackDelay), |rs|, ranges);
    assert s == (head + U64(f.ackDelay)) + (U64(|rs|) + ranges);
    var front := head + U64(f.ackDelay) + U64(|rs|);
    assert s == front + ranges;
    RangesStand(rs);
    forall i | 0 <= i < |rs|
      ensures U64At(s, 25 + 16 * i, rs[i].smallest) && U64At(s, 25 + 16 * i + 8, rs[i].largest)
    {
      Shifted(front, ranges, 16 * i, rs[i].smallest);
      Shifted(front, ranges, 16 * i + 8, rs[i].largest);
    }
  }

  lemma RelayImage(f: Frame)
    requires f.RelayData? && f.Fits()
    ensures Image(f, Serialize(f))
  {
    var s, d := Serialize(f), f.rawData;
    var head := [0x8] + U64(f.relayPathId);
    U64Stands([0x8], f.relayPathId, U64(f.destStreamId) + (U64(|d|) + d));
    U64Stands(head, f.destStreamId, U64(|d|) + d);
    assert s == head + (U64(f.destStreamId) + (U64(|d|) + d));
    U64Stands(head + U64(f.destStreamId), |d|, d);
    assert s == (head + U64(f.destStreamId)) + (U64(|d|) + d);
  }

  predicate KindOf(t: byte, f: Frame) {
    match f
    case Stream(_, _, _, _) => t == 0x1
    case Ack(_, _, _) => t == 0x2
    case Ping => t == 0x5
    case AddPath(_) => t == 0x6
    case AddPathResp(_, _) => t == 0x7
    case RelayData(_, _, _) => t == 0x8
    case OpenStream(_) => t == 0x9
    case OpenStreamResp(_, _) => t == 0xA
  }

  lemma ParsersMakeTheirKind(body: seq<byte>)
    ensures ParseStream(body).Parsed? ==> ParseStream(body).value.Stream?
    ensures ParseAck(body).Parsed? ==> ParseAck(body).value.Ack?
    ensures ParseAddPathResp(body).Parsed? ==> ParseAddPathResp(body).value.AddPathResp?
    ensures ParseRelayData(body).Parsed? ==> ParseRelayData(body).value.RelayData?
  {
    hide ParseBytes, ParseRanges, ReadU64, ReadByte;
  }

  /** What bytes parse as is decided by the first of them; the numbers 0, 3, 4 and everything above 10
      are refused, and a ping needs no more than its number. */
  lemma ParsedKind(data: seq<byte>)
    ensures ParseFrame(data).Parsed? ==> data != [] && KindOf(data[0], ParseFrame(data).value)
    ensures ParseFrame(data).Parsed? ==> data[0] in {0x1, 0x2, 0x5, 0x6, 0x7, 0x8, 0x9, 0xA}
    ensures data != [] && data[0] == 0x5 ==> ParseFrame(data) == Parsed(Ping, data[1..])
  {
    if data != [] {
      ParsersMakeTheirKind(data[1..]);
    }
    hide ParseStream, ParseAck, ParseAddPathResp, ParseRelayData, ParseBytes, ReadU64;
  }

  // ----- Packets and what is written of them -----

  /** Type, number, frame count, and then the frames. */
  lemma PacketImage(p: Packet)
    requires p.Fits()
    ensures var s := SerializePacket(p);
            && |s| >= 17 && s[0] == p.header.htype && U64At(s, 1, p.header.packetNum) && U64At(s, 9, |p.payload|)
            && s[17..] == SerializeFrames(p.payload)
  {
    hide SerializeFrames, FramesFit, TotalSize;
    var s, frames := SerializePacket(p), SerializeFrames(p.payload);
    var head := [p.header.htype] + U64(p.header.packetNum);
    U64Stands([p.header.htype], p.header.packetNum, U64(|p.payload|) + frames);
    U64Stands(head, |p.payload|, frames);
    assert s == head + (U64(|p.payload|) + frames);
    assert head + U64(|p.payload|) + frames == s;
    hide U64At;
  }

  /** Each frame of a packet stands, whole, behind those before it. */
  lemma {:induction false} FramesStand(fs: seq<Frame>, i: nat)
    requires FramesFit(fs) && i < |fs|
    ensures var s, at := SerializeFrames(fs), TotalSize(fs[..i]);
            at + fs[i].Size() <= |s| && Image(fs[i], s[at..at + fs[i].Size()])
  {
    hide Image, Serialize, Frame.Size, Frame.Fits, SerializeFrames, TotalSize;
    FirstAndRest(fs);
    if i == 0 {
      FrameImage(fs[0]);
      NoSize();
      assert SerializeFrames(fs)[0..fs[0].Size()] == Serialize(fs[0]);
    } else {
      FramesStand(fs[1..], i - 1);
      SizeBefore(fs, i);
      var at := TotalSize(fs[1..][..i - 1]);
      SliceBehind(Serialize(fs[0]), SerializeFrames(fs[1..]), at, at + fs[i].Size());
    }
  }

  lemma FirstAndRest(fs: seq<Frame>)
    requires FramesFit(fs) && fs != []
    ensures fs[0].Fits() && FramesFit(fs[1..])
    ensures SerializeFrames(fs) == Serialize(fs[0]) + SerializeFrames(fs[1..])
  {
    hide Serialize, Frame.Size, Frame.Fits;
  }

  lemma NoSize()
    ensures TotalSize([]) == 0
  {
  }

  lemma SizeBefore(fs: seq<Frame>, i: nat)
    requires 0 < i < |fs|
    ensures TotalSize(fs[..i]) == fs[0].Size() + TotalSize(fs[1..][..i - 1]) && fs[1..][i - 1] == fs[i]
  {
    hide Frame.Size;
    assert fs[..i][1..] == fs[1..][..i - 1] && fs[..i][0] == fs[0];
  }

  lemma SliceBehind(a: seq<byte>, b: seq<byte>, from: nat, to: nat)
    requires from <= to <= |b|
    ensures (a + b)[|a| + from..|a| + to] == b[from..to]
  {
  }

  /** WriteStream puts the length of a buffer, in four bytes, in front of it; a buffer of the packer
      begins with the length of the body once more. */
  lemma WrittenImage(b: seq<byte>)
    requires 4 <= |b| < U32_LIMIT
    ensures WriteStream(b).Some?
    ensures var out := WriteStream(b).value; U32At(out, 0, |b|) && out[4..] == b
  {
    U32Stands([], |b|, b);
    assert [] + (U32(|b|) + b) == U32(|b|) + b;
  }

  lemma OutputImage(p: Packet)
    requires p.Fits() && BodyLength(p.payload) <= MAX_PACKET
    ensures U32At(PackerOutput(p), 0, BodyLength(p.payload)) && PackerOutput(p)[4..] == SerializePacket(p)
  {
    U32Stands([], BodyLength(p.payload), SerializePacket(p));
    assert [] + PackerOutput(p) == PackerOutput(p);
  }

  // ----- Messages of the file transfer -----

  /** Index, length and the bytes of the file from index times chunk size on. */
  lemma MessageImage(f: File, j: nat)
    requires f.Valid() && j < f.TotalChunks()
    ensures var m, n := Message(f, j), f.ChunkLength(j);
            && 0 < n && j * f.chunkSize + n <= |f.bytes|
            && U64At(m, 0, j) && U32At(m, 8, n) && m[12..] == f.bytes[j * f.chunkSize..j * f.chunkSize + n]
  {
    ChunkFacts(f, j);
    var m, d := Message(f, j), Chunk(f, j);
    assert m == [] + (U64(j) + (U32(|d|) + d)) && m == U64(j) + (U32(|d|) + d);
    U64Stands([], j, U32(|d|) + d);
    U32Stands(U64(j), |d|, d);
  }
}
