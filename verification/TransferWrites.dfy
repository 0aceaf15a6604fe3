/** From the writes of server and relay to the frames of the transfer: each message becomes one stream
    frame in a packet of its own, these frames are the tiles of the layout, and what arrives of them
    gives the file (stream.go, internal/transport/packer.go and examples/file_transfer). */
module TransferWrites {
  import opened AckRanges
  import opened Assembly
  import opened Bytes
  import opened Common
  import opened Frames
  import opened Framing
  import opened Packers
  import opened Packets
  import opened RecvStreams
  import opened SendStreams
  import opened Transfer
  import opened TransferClient

  /** The packet limit both programs give their packers. */
  const MAX_BODY: nat := 1048576

  function FrameOf(id: nat, w: Write): Frame {
    Stream(id, w.offset, false, w.payload)
  }

  /** SetWriteOffset and then Write, as far as the send stream goes. */
  function Placed(send: Send, w: Write): Send {
    Written(send.(base := w.offset, writeOffset := w.offset), w.payload)
  }

  // ----- One write is one frame -----

  /** A write on a stream with nothing buffered, at the offset set before it: a registered path
      records one packet that holds one frame with the whole payload, and nothing stays behind. */
  lemma WriteIsOneFrame(s: State, p: PathId, id: nat, send: Send, w: Write, now: nat, err: WriteError)
    requires send.chunks == [] && p in s.paths && w.payload != [] && 43 + |w.payload| <= s.maxPacketSize
    ensures var (s', send', r) := SubmitFromSendStream(s, p, id, Placed(send, w), now, err);
            && r.Submitted? && r.id in s'.pending && s'.pending[r.id].frames == [FrameOf(id, w)]
            && send'.chunks == [] && send'.base == w.offset + |w.payload|
  {
    var placed := Placed(send, w);
    assert placed.chunks == [w.payload] && [w.payload][1..] == [];
    assert placed.Buffered() == w.payload + Concat([]) == w.payload;
    WholeBufferSubmitted(s, p, id, placed, now, err);
    PoppedAlone(id, placed, w, s.maxPacketSize);
    RecordedFrames(s, p, id, placed, now, err);
    FitsExactly(s.maxPacketSize, [FrameOf(id, w)]);
    assert [FrameOf(id, w)][1..] == [];
    assert Payload([FrameOf(id, w)]) == w.payload + [];
  }

  lemma PoppedAlone(id: nat, placed: Send, w: Write, max: nat)
    requires placed.chunks == [w.payload] && placed.base == w.offset && 0 < |w.payload| <= max
    ensures Popped(id, placed, max).0 == [FrameOf(id, w)]
  {
    assert [w.payload][1..] == [];
    assert PopLoop(id, w.offset + |w.payload|, [], max - |w.payload|) == ([], []);
    assert PopLoop(id, w.offset, [w.payload], max).0 == [FrameOf(id, w)] + [];
  }

  /** A write, and the packer's state and the outcome it met. */
  datatype Call = Call(write: Write, packer: State, now: nat, err: WriteError)

  /** The frames of the packets recorded by writes one after the other; the packer may change in any
      way between them. */
  function Recorded(p: PathId, id: nat, send: Send, calls: seq<Call>): seq<seq<Frame>>
    decreases |calls|
  {
    if calls == [] then []
    else
      var c := calls[0];
      var (s', send', r) := SubmitFromSendStream(c.packer, p, id, Placed(send, c.write), c.now, c.err);
      (if r.Submitted? && r.id in s'.pending then [s'.pending[r.id].frames] else [])
      + Recorded(p, id, send', calls[1..])
  }

  predicate Fitting(p: PathId, c: Call) {
    p in c.packer.paths && c.write.payload != [] && 43 + |c.write.payload| <= c.packer.maxPacketSize
  }

  lemma {:induction false} EachWriteOneFrame(p: PathId, id: nat, send: Send, calls: seq<Call>)
    requires send.chunks == [] && forall i :: 0 <= i < |calls| ==> Fitting(p, calls[i])
    ensures var packets := Recorded(p, id, send, calls);
            && |packets| == |calls|
            && forall i :: 0 <= i < |calls| ==> packets[i] == [FrameOf(id, calls[i].write)]
    decreases |calls|
  {
    hide SubmitFromSendStream;
    if calls != [] {
      var c, rest := calls[0], calls[1..];
      var (s', send', r) := SubmitFromSendStream(c.packer, p, id, Placed(send, c.write), c.now, c.err);
      assert Fitting(p, c);
      WriteIsOneFrame(c.packer, p, id, send, c.write, c.now, c.err);
      assert forall i :: 0 <= i < |rest| ==> rest[i] == calls[i + 1];
      EachWriteOneFrame(p, id, send', rest);
      assert Recorded(p, id, send, calls) == [[FrameOf(id, c.write)]] + Recorded(p, id, send', rest);
    }
  }

  // ----- The writes are the tiles -----

  /** The offset at which the server begins window `i`: behind the metadata, and then wherever it left
      the stream after the window before. */
  function Base(f: File, meta: seq<byte>, windowSize: nat, i: nat): nat
    requires f.Valid() && windowSize > 0 && i <= TotalWindows(f, windowSize)
  {
    if i == 0 then |meta|
    else
      WindowFacts(f, windowSize, i - 1);
      OffsetOf(f, Base(f, meta, windowSize, i - 1), WindowStart(f, windowSize, i - 1), WindowEnd(f, windowSize, i - 1))
  }

  lemma {:induction false} BaseIsTheOffset(f: File, meta: seq<byte>, windowSize: nat, i: nat)
    requires f.Valid() && windowSize > 0 && i < TotalWindows(f, windowSize)
    ensures WindowStart(f, windowSize, i) <= f.TotalChunks()
    ensures Base(f, meta, windowSize, i) == OffsetOf(f, |meta|, 0, WindowStart(f, windowSize, i))
  {
    WindowFacts(f, windowSize, i);
    if i == 0 {
      assert Messages(f, 0, 0) == [];
    } else {
      WindowFacts(f, windowSize, i - 1);
      BaseIsTheOffset(f, meta, windowSize, i - 1);
      OffsetFromWindow(f, |meta|, WindowStart(f, windowSize, i - 1), WindowEnd(f, windowSize, i - 1));
    }
  }

  /** A write of window `i`, by the server or by the relay. */
  ghost predicate WindowWrite(f: File, meta: seq<byte>, windowSize: nat, i: nat, w: Write)
    requires f.Valid() && windowSize > 0
  {
    i < TotalWindows(f, windowSize) &&
    (WindowFacts(f, windowSize, i);
     var start, end := WindowStart(f, windowSize, i), WindowEnd(f, windowSize, i);
     var base := Base(f, meta, windowSize, i);
     w in Plan(f, base, start, start, end, 0) || w in RelayPart(f, base, start, end))
  }

  /** The metadata, or a write of some window. */
  ghost predicate TransferWrite(f: File, meta: seq<byte>, windowSize: nat, w: Write)
    requires f.Valid() && windowSize > 0
  {
    w == Write(0, meta) || exists i :: WindowWrite(f, meta, windowSize, i, w)
  }

  lemma WindowWriteIsATile(f: File, meta: seq<byte>, windowSize: nat, i: nat, w: Write)
    requires f.Valid() && windowSize > 0 && windowSize % 2 == 0 && meta != []
    requires WindowWrite(f, meta, windowSize, i, w)
    ensures var t := Layout(f, meta, f.TotalChunks()); w.offset in t.tiles && t.tiles[w.offset] == w.payload
  {
    hide Layout, Plan, RelayPart, Base, OffsetOf, WindowEnd, WindowStart;
    BaseIsTheOffset(f, meta, windowSize, i);
    WindowWritesTile(f, meta, windowSize, i);
  }

  lemma {:induction false} MetadataTile(f: File, meta: seq<byte>, n: nat)
    requires f.Valid() && n <= f.TotalChunks() && meta != []
    ensures 0 in Tiles(f, meta, n) && Tiles(f, meta, n)[0] == meta
  {
    if n > 0 {
      MetadataTile(f, meta, n - 1);
    }
  }

  /** The window of a chunk. */
  lemma WindowOf(f: File, windowSize: nat, j: nat) returns (i: nat)
    requires f.Valid() && windowSize > 0 && j < f.TotalChunks()
    ensures i < TotalWindows(f, windowSize)
    ensures WindowStart(f, windowSize, i) <= j < WindowEnd(f, windowSize, i)
  {
    i := j / windowSize;
    var n, k := f.TotalChunks(), TotalWindows(f, windowSize);
    DivisionBounds(j, windowSize);
    DivisionBounds(n + windowSize - 1, windowSize);
    assert i < k by {
      MulLe(k, i, windowSize);
      MulLe(i, i, windowSize);
    }
    MulLe(i, i, windowSize);
    WindowFacts(f, windowSize, i);
    if i + 1 < k {
      assert WindowStart(f, windowSize, i + 1) == i * windowSize + windowSize;
    }
  }

  lemma ChunkIsWritten(f: File, meta: seq<byte>, windowSize: nat, j: nat)
    requires f.Valid() && windowSize > 0 && windowSize % 2 == 0 && meta != [] && j < f.TotalChunks()
    ensures TransferWrite(f, meta, windowSize, Write(OffsetOf(f, |meta|, 0, j), Message(f, j)))
  {
    hide Layout, Plan, RelayPart, Base, OffsetOf, Message;
    var i := WindowOf(f, windowSize, j);
    BaseIsTheOffset(f, meta, windowSize, i);
    WindowWritesTile(f, meta, windowSize, i);
    assert WindowWrite(f, meta, windowSize, i, Write(OffsetOf(f, |meta|, 0, j), Message(f, j)));
  }

  /** What server and relay write in the whole transfer, window after window with offsets added up on
      the way, is exactly the tiles of the layout. */
  lemma WritesAreTheTiles(f: File, meta: seq<byte>, windowSize: nat, w: Write)
    requires f.Valid() && windowSize > 0 && windowSize % 2 == 0 && meta != []
    ensures var t := Layout(f, meta, f.TotalChunks());
            TransferWrite(f, meta, windowSize, w) <==> w.offset in t.tiles && t.tiles[w.offset] == w.payload
  {
    hide WindowWrite, OffsetOf, Message, Tiles;
    var n := f.TotalChunks();
    var tiles := Layout(f, meta, n).tiles;
    MetadataTile(f, meta, n);
    LayoutMembers(f, meta, n);
    if TransferWrite(f, meta, windowSize, w) {
      if w != Write(0, meta) {
        var i :| WindowWrite(f, meta, windowSize, i, w);
        WindowWriteIsATile(f, meta, windowSize, i, w);
      }
    } else if w.offset in tiles && tiles[w.offset] == w.payload {
      var j :| 0 <= j < n && w.offset == OffsetOf(f, |meta|, 0, j);
      ChunkIsWritten(f, meta, windowSize, j);
    }
  }

  /** With the program's own sizes every write fits into one packet. */
  lemma WritesFit(f: File, meta: seq<byte>, w: Write)
    requires f.Valid() && f.chunkSize == CHUNK_SIZE && meta != [] && 43 + |meta| <= MAX_BODY
    requires TransferWrite(f, meta, WINDOW_SIZE, w)
    ensures 0 < |w.payload| && 43 + |w.payload| <= MAX_BODY
  {
    hide WindowWrite, OffsetOf, Message, Tiles;
    WindowSizeIsTwelve();
    WritesAreTheTiles(f, meta, WINDOW_SIZE, w);
    LayoutMembers(f, meta, f.TotalChunks());
    MetadataTile(f, meta, f.TotalChunks());
    if w.offset != 0 {
      var j :| 0 <= j < f.TotalChunks() && w.offset == OffsetOf(f, |meta|, 0, j);
      ChunkFacts(f, j);
    }
  }

  /** The program's constants: server and relay agree in every window, and whatever else their packers
      do, their writes leave as packets of one frame each, and every such frame is a tile. */
  lemma TransferFrames(f: File, meta: seq<byte>, p: PathId, id: nat, send: Send, calls: seq<Call>)
    requires f.Valid() && f.chunkSize == CHUNK_SIZE && meta != [] && 43 + |meta| <= MAX_BODY && send.chunks == []
    requires forall i :: 0 <= i < |calls| ==>
                           && p in calls[i].packer.paths && calls[i].packer.maxPacketSize == MAX_BODY
                           && TransferWrite(f, meta, WINDOW_SIZE, calls[i].write)
    ensures forall i :: 0 <= i < TotalWindows(f, WINDOW_SIZE) ==> WindowAgrees(f, WINDOW_SIZE, |meta|, i)
    ensures var t, packets := Layout(f, meta, f.TotalChunks()), Recorded(p, id, send, calls);
            && |packets| == |calls|
            && forall i :: 0 <= i < |calls| ==>
                 var w := calls[i].write;
                 packets[i] == [Stream(id, w.offset, false, w.payload)]
                 && w.offset in t.tiles && t.tiles[w.offset] == w.payload
  {
    hide WindowWrite, Layout, Recorded, TransferWrite, WindowAgrees;
    WindowSizeIsTwelve();
    AllWindowsAgreeExactly(f, WINDOW_SIZE, |meta|);
    forall i | 0 <= i < |calls|
      ensures Fitting(p, calls[i])
      ensures var t, w := Layout(f, meta, f.TotalChunks()), calls[i].write;
              w.offset in t.tiles && t.tiles[w.offset] == w.payload
    {
      WritesFit(f, meta, calls[i].write);
      WritesAreTheTiles(f, meta, WINDOW_SIZE, calls[i].write);
    }
    EachWriteOneFrame(p, id, send, calls);
  }

  // ----- From the writes to the file -----

  /** The receiving stream after these frames. */
  function Receiver(v: Variant, frames: seq<Frame>): Recv
    requires StreamFrames(frames)
    decreases |frames|
  {
    if frames == [] then EMPTY_RECV
    else
      var f := frames[|frames| - 1];
      HandleFrame(v, Receiver(v, frames[..|frames| - 1]), f.offset, f.data, f.fin)
  }

  function Offsets(frames: seq<Frame>): (r: seq<nat>)
    requires StreamFrames(frames)
    ensures |r| == |frames| && forall i :: 0 <= i < |frames| ==> r[i] == frames[i].offset
  {
    seq(|frames|, i requires 0 <= i < |frames| => frames[i].offset)
  }

  predicate TileFrames(t: Tiling, id: nat, frames: seq<Frame>) {
    forall i :: 0 <= i < |frames| ==>
      && frames[i].Stream? && frames[i].offset in t.tiles
      && frames[i] == Stream(id, frames[i].offset, false, t.tiles[frames[i].offset])
  }

  lemma {:induction false} ReceiverRuns(v: Variant, t: Tiling, id: nat, frames: seq<Frame>)
    requires TileFrames(t, id, frames)
    ensures Arrivals(t, Offsets(frames)) && Receiver(v, frames) == Run(v, t, Offsets(frames))
    decreases |frames|
  {
    hide HandleFrame;
    if frames != [] {
      var before := frames[..|frames| - 1];
      ReceiverRuns(v, t, id, before);
      assert Offsets(frames)[..|frames| - 1] == Offsets(before);
    }
  }

  /** From the writes of server and relay to the file: frames of theirs arrive in any order and with
      any repetitions, each at least once. The client then puts together the file: with the repaired
      receive loop always, with the loop as written exactly when every frame thrown away comes
      again. */
  lemma TransferRestoresFile(v: Variant, f: File, meta: seq<byte>, id: nat, frames: seq<Frame>)
    requires f.Valid() && meta != []
    requires forall fr :: fr in frames <==>
                            fr.Stream? && fr == FrameOf(id, Write(fr.offset, fr.data))
                            && TransferWrite(f, meta, WINDOW_SIZE, Write(fr.offset, fr.data))
    ensures StreamFrames(frames)
    ensures var t := Layout(f, meta, f.TotalChunks());
            && Arrivals(t, Offsets(frames))
            && (Downloaded(meta, Receiver(v, frames).readBuf, f.TotalChunks()) == Some(f.bytes)
                <==> v.Repaired? || DiscardsComeAgain(t, Offsets(frames)))
  {
    hide Layout, TransferWrite, Downloaded, DiscardsComeAgain, Receiver;
    WindowSizeIsTwelve();
    var t := Layout(f, meta, f.TotalChunks());
    forall i | 0 <= i < |frames|
      ensures frames[i].Stream? && frames[i].offset in t.tiles
      ensures frames[i] == Stream(id, frames[i].offset, false, t.tiles[frames[i].offset])
    {
      assert frames[i] in frames;
      WritesAreTheTiles(f, meta, WINDOW_SIZE, Write(frames[i].offset, frames[i].data));
    }
    ReceiverRuns(v, t, id, frames);
    forall o | o in t.tiles
      ensures o in Offsets(frames)
    {
      WritesAreTheTiles(f, meta, WINDOW_SIZE, Write(o, t.tiles[o]));
      var fr := Stream(id, o, false, t.tiles[o]);
      assert fr in frames;
      var i :| 0 <= i < |frames| && frames[i] == fr;
      assert Offsets(frames)[i] == o;
    }
    DownloadRestoresFile(v, f, meta, Offsets(frames));
  }

  // ----- Through packets and the wire -----

  /** A buffer that the packer hands to WriteStream for a packet of these frames, under some number. */
  ghost predicate Carries(buffer: seq<byte>, frames: seq<Frame>) {
    exists num :: IsOutput(buffer, Packet(Header(0, num), frames))
  }

  predicate IsOutput(buffer: seq<byte>, p: Packet) {
    p.Fits() && BodyLength(p.payload) <= MAX_PACKET && |p.payload| <= MAX_FRAMES && buffer == PackerOutput(p)
  }

  /** What the multiplexer makes of buffers one after the other; one that does not parse is dropped. */
  function FramesOf(v: Variant, buffers: seq<seq<byte>>): seq<Frame>
    decreases |buffers|
  {
    if buffers == [] then []
    else
      var p := DeserializePacket(v, buffers[|buffers| - 1]);
      FramesOf(v, buffers[..|buffers| - 1]) + if p.Some? then p.value.payload else []
  }

  /** A packet of one frame survives even the parser as written. */
  lemma OneFrameDecodes(v: Variant, buffer: seq<byte>, f: Frame)
    requires Carries(buffer, [f])
    ensures DeserializePacket(v, buffer).Some? && DeserializePacket(v, buffer).value.payload == [f]
  {
    var num :| IsOutput(buffer, Packet(Header(0, num), [f]));
    PrefixedPacketDecodes(v, Packet(Header(0, num), [f]));
    assert Copies(f, 1) == [f];
  }

  predicate OneFrameEach(packets: seq<seq<Frame>>) {
    forall k :: 0 <= k < |packets| ==> |packets[k]| == 1
  }

  /** Every buffer is that of one of the packets. */
  ghost predicate Buffers(packets: seq<seq<Frame>>, buffers: seq<seq<byte>>) {
    forall j :: 0 <= j < |buffers| ==> exists k :: 0 <= k < |packets| && Carries(buffers[j], packets[k])
  }

  /** Every packet is in some buffer. */
  ghost predicate AllIn(packets: seq<seq<Frame>>, buffers: seq<seq<byte>>) {
    forall k :: 0 <= k < |packets| ==> exists j :: 0 <= j < |buffers| && Carries(buffers[j], packets[k])
  }

  lemma OneFrameIs(frames: seq<Frame>)
    requires |frames| == 1
    ensures frames == [frames[0]]
  {
  }

  /** The frames that come out are those of the packets that came in. */
  lemma {:induction false} FramesComeOut(v: Variant, packets: seq<seq<Frame>>, buffers: seq<seq<byte>>)
    requires OneFrameEach(packets) && Buffers(packets, buffers)
    ensures |FramesOf(v, buffers)| == |buffers|
    ensures forall j :: 0 <= j < |buffers| ==> Carries(buffers[j], [FramesOf(v, buffers)[j]])
    ensures forall j :: 0 <= j < |buffers| ==> [FramesOf(v, buffers)[j]] in packets
    decreases |buffers|
  {
    hide Carries, DeserializePacket;
    if buffers != [] {
      var n := |buffers| - 1;
      var before := buffers[..n];
      assert Buffers(packets, before) by {
        assert forall j :: 0 <= j < |before| ==> before[j] == buffers[j];
      }
      FramesComeOut(v, packets, before);
      var k :| 0 <= k < |packets| && Carries(buffers[n], packets[k]);
      OneFrameIs(packets[k]);
      OneFrameDecodes(v, buffers[n], packets[k][0]);
      assert FramesOf(v, buffers) == FramesOf(v, before) + [packets[k][0]];
    }
  }

  /** A buffer carries one list of frames. */
  lemma CarriesOne(buffer: seq<byte>, f: Frame, g: Frame)
    requires Carries(buffer, [f]) && Carries(buffer, [g])
    ensures f == g
  {
    OneFrameDecodes(Repaired, buffer, f);
    OneFrameDecodes(Repaired, buffer, g);
    assert [f][0] == [g][0];
  }

  lemma FrameAt(v: Variant, packets: seq<seq<Frame>>, buffers: seq<seq<byte>>, j: nat)
    requires OneFrameEach(packets) && Buffers(packets, buffers) && j < |buffers|
    ensures |FramesOf(v, buffers)| == |buffers|
    ensures Carries(buffers[j], [FramesOf(v, buffers)[j]]) && [FramesOf(v, buffers)[j]] in packets
  {
    FramesComeOut(v, packets, buffers);
  }

  lemma BufferOf(packets: seq<seq<Frame>>, buffers: seq<seq<byte>>, q: seq<Frame>) returns (j: nat)
    requires AllIn(packets, buffers) && q in packets
    ensures j < |buffers| && Carries(buffers[j], q)
  {
    var k :| 0 <= k < |packets| && packets[k] == q;
    j :| 0 <= j < |buffers| && Carries(buffers[j], packets[k]);
  }

  lemma FramesAreThose(v: Variant, packets: seq<seq<Frame>>, buffers: seq<seq<byte>>, f: Frame)
    requires OneFrameEach(packets) && Buffers(packets, buffers) && AllIn(packets, buffers)
    ensures f in FramesOf(v, buffers) <==> [f] in packets
  {
    hide Carries, FramesOf, Buffers, AllIn, OneFrameEach;
    var frames := FramesOf(v, buffers);
    if f in frames {
      var j :| 0 <= j < |frames| && frames[j] == f;
      SameLength(v, packets, buffers);
      FrameAt(v, packets, buffers, j);
    }
    if [f] in packets {
      var j := BufferOf(packets, buffers, [f]);
      FrameAt(v, packets, buffers, j);
      CarriesOne(buffers[j], f, frames[j]);
    }
  }

  lemma SameLength(v: Variant, packets: seq<seq<Frame>>, buffers: seq<seq<byte>>)
    requires OneFrameEach(packets) && Buffers(packets, buffers)
    ensures |FramesOf(v, buffers)| == |buffers|
  {
    FramesComeOut(v, packets, buffers);
  }

  /** The calls of one sender, with the program's sizes. */
  ghost predicate Sender(f: File, meta: seq<byte>, p: PathId, send: Send, calls: seq<Call>)
    requires f.Valid()
  {
    && send.chunks == []
    && forall i :: 0 <= i < |calls| ==>
                     && p in calls[i].packer.paths && calls[i].packer.maxPacketSize == MAX_BODY
                     && TransferWrite(f, meta, WINDOW_SIZE, calls[i].write)
  }

  ghost predicate Makes(calls: seq<Call>, w: Write) {
    exists i :: 0 <= i < |calls| && calls[i].write == w
  }

  /** The packets of a sender are those of its writes. */
  lemma SenderPackets(f: File, meta: seq<byte>, p: PathId, id: nat, send: Send, calls: seq<Call>, fr: Frame)
    requires f.Valid() && f.chunkSize == CHUNK_SIZE && meta != [] && 43 + |meta| <= MAX_BODY
    requires Sender(f, meta, p, send, calls)
    ensures OneFrameEach(Recorded(p, id, send, calls))
    ensures [fr] in Recorded(p, id, send, calls) <==> IsWrite(fr, id) && Makes(calls, Write(fr.offset, fr.data))
    ensures [fr] in Recorded(p, id, send, calls) ==> TransferWrite(f, meta, WINDOW_SIZE, Write(fr.offset, fr.data))
  {
    hide TransferWrite, Recorded;
    TransferFrames(f, meta, p, id, send, calls);
    var packets := Recorded(p, id, send, calls);
    if [fr] in packets {
      var i :| 0 <= i < |packets| && packets[i] == [fr];
      assert packets[i][0] == FrameOf(id, calls[i].write);
      assert calls[i].write == Write(fr.offset, fr.data);
    }
    if IsWrite(fr, id) && Makes(calls, Write(fr.offset, fr.data)) {
      var i :| 0 <= i < |calls| && calls[i].write == Write(fr.offset, fr.data);
      assert packets[i] == [fr];
    }
  }

  predicate IsWrite(fr: Frame, id: nat) {
    fr.Stream? && fr == FrameOf(id, Write(fr.offset, fr.data))
  }

  /** The frames that come out of the buffers of both senders are exactly the transfer's. */
  lemma FramesAreTheWrites(v: Variant, f: File, meta: seq<byte>, id: nat, p: PathId, send: Send, server: seq<Call>,
                           q: PathId, relaySend: Send, relay: seq<Call>, buffers: seq<seq<byte>>, fr: Frame)
    requires f.Valid() && f.chunkSize == CHUNK_SIZE && meta != [] && 43 + |meta| <= MAX_BODY
    requires Sender(f, meta, p, send, server) && Sender(f, meta, q, relaySend, relay)
    requires forall w :: TransferWrite(f, meta, WINDOW_SIZE, w) ==> Makes(server, w) || Makes(relay, w)
    requires var packets := Recorded(p, id, send, server) + Recorded(q, id, relaySend, relay);
             Buffers(packets, buffers) && AllIn(packets, buffers)
    ensures fr in FramesOf(v, buffers)
       <==> IsWrite(fr, id) && TransferWrite(f, meta, WINDOW_SIZE, Write(fr.offset, fr.data))
  {
    hide TransferWrite, Recorded, Makes, Sender, Buffers, AllIn, FramesOf;
    SenderPackets(f, meta, p, id, send, server, fr);
    SenderPackets(f, meta, q, id, relaySend, relay, fr);
    FramesAreThose(v, Recorded(p, id, send, server) + Recorded(q, id, relaySend, relay), buffers, fr);
  }

  /** From the writes to the file, through packets and the wire: server and relay make all the writes of
      the transfer, and their packets are written under any numbers; buffers with them arrive in any
      order and repetition, each packet at least once. With the repaired receive loop the client then
      puts together the file; with the loop as written exactly when every frame thrown away comes
      again. The parser as written does no harm here, since each packet holds one frame. */
  lemma TransferSurvivesNetwork(v: Variant, f: File, meta: seq<byte>, id: nat, p: PathId, send: Send,
                                server: seq<Call>, q: PathId, relaySend: Send, relay: seq<Call>,
                                buffers: seq<seq<byte>>)
    requires f.Valid() && f.chunkSize == CHUNK_SIZE && meta != [] && 43 + |meta| <= MAX_BODY
    requires Sender(f, meta, p, send, server) && Sender(f, meta, q, relaySend, relay)
    requires forall w :: TransferWrite(f, meta, WINDOW_SIZE, w) ==> Makes(server, w) || Makes(relay, w)
    requires var packets := Recorded(p, id, send, server) + Recorded(q, id, relaySend, relay);
             Buffers(packets, buffers) && AllIn(packets, buffers)
    ensures var t, frames := Layout(f, meta, f.TotalChunks()), FramesOf(v, buffers);
            && StreamFrames(frames) && Arrivals(t, Offsets(frames))
            && (Downloaded(meta, Receiver(v, frames).readBuf, f.TotalChunks()) == Some(f.bytes)
                <==> v.Repaired? || DiscardsComeAgain(t, Offsets(frames)))
  {
    hide TransferWrite, Recorded, Makes, Sender, Buffers, AllIn, FramesOf, Layout, Downloaded, DiscardsComeAgain,
      Receiver;
    forall fr: Frame
      ensures fr in FramesOf(v, buffers)
         <==> IsWrite(fr, id) && TransferWrite(f, meta, WINDOW_SIZE, Write(fr.offset, fr.data))
    {
      FramesAreTheWrites(v, f, meta, id, p, send, server, q, relaySend, relay, buffers, fr);
    }
    TransferRestoresFile(v, f, meta, id, FramesOf(v, buffers));
  }
}
