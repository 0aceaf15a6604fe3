/** Packets on the transport stream: the length prefix of WriteStream (internal/transport/path.go)
    and the incremental reader that undoes it (internal/transport/reader.go). */
module Framing {
  import opened Bytes
  import opened Common
  import opened Frames
  import opened Packets

  /** Above this length the reader gives the stream up; it is also the packer's packet limit. */
  const MAX_PACKET: nat := 1048576

  /** What a byte string holds: the packets in it, the bytes of an unfinished one, and whether an
      oversized length was met. */
  datatype Scan = Scan(packets: seq<seq<byte>>, rest: seq<byte>, halted: bool)

  function Deframe(s: seq<byte>): Scan {
    if |s| < 4 then Scan([], s, false)
    else
      var n := FromBytes(s[..4]);
      if n == 0 then Deframe(s[4..])
      else if n > MAX_PACKET then Scan([], s, true)
      else if |s| < 4 + n then Scan([], s, false)
      else
        var r := Deframe(s[4 + n..]);
        Scan([s[4..4 + n]] + r.packets, r.rest, r.halted)
  }

  function Prepend(p: seq<byte>, s: Scan): Scan {
    Scan([p] + s.packets, s.rest, s.halted)
  }

  function Next(s: seq<byte>): nat
    requires |s| >= 4
  {
    FromBytes(s[..4])
  }

  /** Skipping an empty packet, or taking a whole one, does not depend on what follows. */
  lemma DeframeStep(a: seq<byte>, b: seq<byte>)
    requires |a| >= 4 && Next(a) <= MAX_PACKET && |a| >= 4 + Next(a)
    ensures Next(a) == 0 ==> Deframe(a + b) == Deframe(a[4..] + b)
    ensures Next(a) > 0 ==> Deframe(a + b) == Prepend(a[4..4 + Next(a)], Deframe(a[4 + Next(a)..] + b))
  {
    var n := Next(a);
    assert (a + b)[..4] == a[..4];
    assert (a + b)[4 + n..] == a[4 + n..] + b;
    assert (a + b)[4..4 + n] == a[4..4 + n];
  }

  /** What is found in `s` and, unless it stopped the reader, in what follows. */
  function Continue(r: Scan, b: seq<byte>): Scan {
    var more := Deframe(r.rest + b);
    Scan(r.packets + more.packets, more.rest, more.halted)
  }

  lemma PrependContinue(p: seq<byte>, r: Scan, b: seq<byte>)
    ensures Continue(Prepend(p, r), b) == Prepend(p, Continue(r, b))
  {
    var more := Deframe(r.rest + b).packets;
    assert ([p] + r.packets) + more == [p] + (r.packets + more);
  }

  /** More bytes never change what was found before them. */
  lemma {:induction false} DeframeMore(a: seq<byte>, b: seq<byte>)
    ensures var r := Deframe(a);
            if r.halted then Deframe(a + b).packets == r.packets && Deframe(a + b).halted
            else Deframe(a + b) == Continue(r, b)
    decreases |a|
  {
    if |a| < 4 || (0 < Next(a) <= MAX_PACKET && |a| < 4 + Next(a)) {
      assert Deframe(a) == Scan([], a, false);
      assert Deframe(a + b).packets == [] + Deframe(a + b).packets;
    } else if Next(a) > MAX_PACKET {
      assert (a + b)[..4] == a[..4];
    } else {
      DeframeStep(a, b);
      DeframeMore(a[4 + Next(a)..], b);
      if Next(a) > 0 {
        assert Deframe(a) == Prepend(a[4..4 + Next(a)], Deframe(a[4 + Next(a)..]));
        PrependContinue(a[4..4 + Next(a)], Deframe(a[4 + Next(a)..]), b);
      }
    }
  }

  /** The reader loop, over the results of successive reads; the end of the list is the read error
      that ends it. Whatever the cut, PushPacket gets the packets of the whole byte string. */
  method RunReader(pieces: seq<seq<byte>>) returns (pushed: seq<seq<byte>>, stopped: bool)
    ensures pushed == Deframe(Concat(pieces)).packets
    ensures stopped == Deframe(Concat(pieces)).halted
  {
    pushed, stopped := [], false;
    var readBuffer: seq<byte> := [];
    for i := 0 to |pieces|
      invariant Deframe(Concat(pieces[..i])) == Scan(pushed, readBuffer, false)
    {
      ConcatSnoc(pieces[..i], pieces[i]);
      assert pieces[..i + 1] == pieces[..i] + [pieces[i]];
      ghost var before := pushed;
      DeframeMore(Concat(pieces[..i]), pieces[i]);
      readBuffer := readBuffer + pieces[i];
      ghost var all := Deframe(Concat(pieces[..i + 1]));
      assert all.packets == pushed + Deframe(readBuffer).packets;
      while |readBuffer| >= 4
        invariant all == Scan(pushed + Deframe(readBuffer).packets, Deframe(readBuffer).rest,
                              Deframe(readBuffer).halted)
        decreases |readBuffer|
      {
        var packetLength := FromBytes(readBuffer[..4]);
        if packetLength == 0 {
          readBuffer := readBuffer[4..];
          continue;
        }
        if packetLength > MAX_PACKET {
          assert Deframe(readBuffer).packets == [];
          ConcatSplit(pieces, i + 1);
          DeframeMore(Concat(pieces[..i + 1]), Concat(pieces[i + 1..]));
          return pushed, true;
        }
        if |readBuffer| < 4 + packetLength {
          break;
        }
        PushOne(pushed, readBuffer, packetLength);
        pushed := pushed + [readBuffer[4..4 + packetLength]];
        readBuffer := readBuffer[4 + packetLength..];
      }
      assert Deframe(readBuffer) == Scan([], readBuffer, false);
    }
    assert pieces[..|pieces|] == pieces;
  }

  lemma PushOne(pushed: seq<seq<byte>>, s: seq<byte>, n: nat)
    requires 4 + n <= |s| && 0 < n <= MAX_PACKET && FromBytes(s[..4]) == n
    ensures pushed + Deframe(s).packets
         == (pushed + [s[4..4 + n]]) + Deframe(s[4 + n..]).packets
  {
  }

  /** The bytes WriteStream puts on the transport stream, or its refusal of a short buffer. */
  function WriteStream(b: seq<byte>): Option<seq<byte>>
    requires |b| < U32_LIMIT
  {
    if |b| < 4 then None else Some(U32(|b|) + b)
  }

  predicate Writable(bodies: seq<seq<byte>>) {
    forall i :: 0 <= i < |bodies| ==> 4 <= |bodies[i]| < U32_LIMIT
  }

  function WriteAll(bodies: seq<seq<byte>>): seq<byte>
    requires Writable(bodies)
  {
    if bodies == [] then [] else WriteStream(bodies[0]).value + WriteAll(bodies[1..])
  }

  /** The buffers before the first one that is too large for the reader. */
  function BeforeOversized(bodies: seq<seq<byte>>): (r: seq<seq<byte>>)
    ensures |r| <= |bodies| && r == bodies[..|r|]
    ensures forall i :: 0 <= i < |r| ==> |r[i]| <= MAX_PACKET
    ensures |r| < |bodies| ==> |bodies[|r|]| > MAX_PACKET
  {
    if bodies == [] || |bodies[0]| > MAX_PACKET then [] else [bodies[0]] + BeforeOversized(bodies[1..])
  }

  /** Every written buffer is read back in order, up to the first oversized one; from there on
      nothing is read any more. */
  lemma {:induction false} DeframeUndoesWrites(bodies: seq<seq<byte>>)
    requires Writable(bodies)
    ensures var r := Deframe(WriteAll(bodies));
            && r.packets == BeforeOversized(bodies)
            && (r.halted <==> |BeforeOversized(bodies)| < |bodies|)
            && (!r.halted ==> r.rest == [])
  {
    if bodies != [] {
      var b := bodies[0];
      var s := WriteAll(bodies);
      var tail := WriteAll(bodies[1..]);
      Limits();
      FromToBytes(|b|, 4);
      assert s == U32(|b|) + (b + tail);
      assert s[..4] == U32(|b|);
      if |b| <= MAX_PACKET {
        DeframeUndoesWrites(bodies[1..]);
        assert s[4..4 + |b|] == b;
        assert s[4 + |b|..] == tail;
      }
    }
  }

  lemma AllReadBackExactly(bodies: seq<seq<byte>>)
    requires Writable(bodies)
    ensures Deframe(WriteAll(bodies)).packets == bodies
       <==> forall i :: 0 <= i < |bodies| ==> |bodies[i]| <= MAX_PACKET
  {
    DeframeUndoesWrites(bodies);
    var r := BeforeOversized(bodies);
    if |r| == |bodies| {
      assert r == bodies;
    }
  }

  // ----- Packets end to end -----

  /** The buffer the packer hands to WriteStream: the body behind its own length. */
  function PackerOutput(p: Packet): (s: seq<byte>)
    requires p.Fits() && BodyLength(p.payload) <= MAX_PACKET
    ensures |s| == BodyLength(p.payload) + 4
  {
    U32(BodyLength(p.payload)) + SerializePacket(p)
  }

  /** Packets that pass the packer's size check and the receiver's frame count check. */
  predicate Sendable(ps: seq<Packet>) {
    forall i :: 0 <= i < |ps| ==>
                  ps[i].Fits() && BodyLength(ps[i].payload) <= MAX_PACKET && |ps[i].payload| <= MAX_FRAMES
  }

  function Outputs(ps: seq<Packet>): (r: seq<seq<byte>>)
    requires Sendable(ps)
    ensures |r| == |ps| && Writable(r)
    ensures forall i :: 0 <= i < |ps| ==> r[i] == PackerOutput(ps[i])
  {
    seq(|ps|, i requires 0 <= i < |ps| => PackerOutput(ps[i]))
  }

  /** From the packer through the wire, cut anywhere, to the multiplexer: the packets arrive in
      order, each as `Received`, exactly when every body leaves room for its second length prefix.
      Otherwise the first oversized one and all after it are lost. */
  lemma WireDelivery(ps: seq<Packet>, pieces: seq<seq<byte>>, v: Variant)
    requires Sendable(ps) && Concat(pieces) == WriteAll(Outputs(ps))
    ensures var pushed := Deframe(Concat(pieces)).packets;
            && |pushed| <= |ps|
            && (forall i :: 0 <= i < |pushed| ==>
                  DeserializePacket(v, pushed[i]) == Some(Packet(ps[i].header, Received(v, ps[i].payload))))
            && (|pushed| == |ps| <==> forall i :: 0 <= i < |ps| ==> BodyLength(ps[i].payload) <= MAX_PACKET - 4)
            && (|pushed| < |ps| ==> BodyLength(ps[|pushed|].payload) > MAX_PACKET - 4)
  {
    var outs := Outputs(ps);
    DeframeUndoesWrites(outs);
    var pushed := Deframe(Concat(pieces)).packets;
    forall i | 0 <= i < |pushed|
      ensures DeserializePacket(v, pushed[i]) == Some(Packet(ps[i].header, Received(v, ps[i].payload)))
      ensures BodyLength(ps[i].payload) <= MAX_PACKET - 4
    {
      assert pushed[i] == outs[i];
      PrefixedPacketDecodes(v, ps[i]);
    }
  }

  /** A stream frame of 1048533 bytes makes a body of exactly 1 MiB. It passes the packer's check; with
      the second prefix it stops the reader, and no packet behind it arrives either. */
  lemma FullPacketStopsReader(data: seq<byte>, more: seq<Packet>)
    requires |data| == 1048533
    ensures var p := Packet(Header(0, 1), [Stream(1, 0, false, data)]);
            Sendable([p]) && (Sendable(more) ==>
              Sendable([p] + more)
              && Deframe(WriteAll(Outputs([p] + more))).packets == []
              && Deframe(WriteAll(Outputs([p] + more))).halted)
  {
    var p := Packet(Header(0, 1), [Stream(1, 0, false, data)]);
    assert p.payload[1..] == [];
    assert TotalSize(p.payload) == p.payload[0].Size() + TotalSize(p.payload[1..]) == 26 + |data|;
    if Sendable(more) {
      DeframeUndoesWrites(Outputs([p] + more));
    }
  }

  /** Empty packets between others are skipped, before any packet and wherever the reader stands. */
  lemma EmptyPacketSkipped(s: seq<byte>)
    ensures Deframe([0, 0, 0, 0] + s) == Deframe(s)
  {
    var t: seq<byte> := [0, 0, 0, 0] + s;
    assert t[..4] == [0, 0, 0, 0] && t[4..] == s;
    FourZeros();
  }

  lemma FourZeros()
    ensures FromBytes([0, 0, 0, 0]) == 0
  {
    FromBytesSnoc([], 0);
    FromBytesSnoc([0], 0);
    FromBytesSnoc([0, 0], 0);
    FromBytesSnoc([0, 0, 0], 0);
    assert [] + [0] == [0] && [0] + [0] == [0, 0] && [0, 0] + [0] == [0, 0, 0] && [0, 0, 0] + [0] == [0, 0, 0, 0];
  }
}
