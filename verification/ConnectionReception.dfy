/** Handling the frames of a received packet keeps the invariant. */
module ConnectionReception {
  import opened AckRanges
  import opened Bytes
  import opened Common
  import opened Connection
  import opened ConnectionInvariant
  import opened ConnectionSteps
  import opened Frames
  import opened Packers
  import opened PackerRuns
  import opened RecvStreams
  import Packets

  // ----- The reader's place in its packet -----

  lemma ReaderDone(processing: map<PathId, (PacketId, nat)>, recorded: set<PacketId>, p: PathId)
    requires ReadersOk(processing, recorded)
    ensures ReadersOk(processing - {p}, recorded)
  {
  }

  lemma ReaderNext(processing: map<PathId, (PacketId, nat)>, recorded: set<PacketId>, p: PathId)
    requires ReadersOk(processing, recorded) && p in processing
    ensures ReadersOk(processing[p := (processing[p].0, processing[p].1 + 1)], recorded)
  {
  }

  /** The reader has handled all frames. */
  lemma HandledAll(v: Variant, recv: map<nat, Recv>, lost: set<(nat, nat)>, recorded: set<PacketId>,
                   processing: map<PathId, (PacketId, nat)>, packets: map<PacketId, seq<Frame>>, p: PathId)
    requires HandledOk(v, recv, lost, recorded, processing, packets) && p in processing
    requires processing[p].0 in packets && processing[p].1 >= |Packets.Received(v, packets[processing[p].0])|
    ensures HandledOk(v, recv, lost, recorded, processing - {p}, packets)
  {
    forall q, k | q in recorded && q in packets
                  && 0 <= k < Done(processing - {p}, q, |Packets.Received(v, packets[q])|)
      ensures Accounted(recv, lost, Packets.Received(v, packets[q])[k])
    {
      assert k < Done(processing, q, |Packets.Received(v, packets[q])|);
    }
  }

  /** The reader has handled one more frame. */
  lemma HandledOneMore(v: Variant, recv: map<nat, Recv>, lost: set<(nat, nat)>, recorded: set<PacketId>,
                       processing: map<PathId, (PacketId, nat)>, packets: map<PacketId, seq<Frame>>, p: PathId)
    requires HandledOk(v, recv, lost, recorded, processing, packets) && p in processing
    requires var (id, n) := processing[p];
             id in packets && n < |packets[id]| && Accounted(recv, lost, Packets.Received(v, packets[id])[n])
    ensures HandledOk(v, recv, lost, recorded, processing[p := (processing[p].0, processing[p].1 + 1)], packets)
  {
    var (id, n) := processing[p];
    var processing' := processing[p := (id, n + 1)];
    forall q, k | q in recorded && q in packets && 0 <= k < Done(processing', q, |Packets.Received(v, packets[q])|)
      ensures Accounted(recv, lost, Packets.Received(v, packets[q])[k])
    {
      if q != id || k != n {
        assert k < Done(processing, q, |Packets.Received(v, packets[q])|);
      }
    }
  }

  lemma DoneIn(v: Variant, x: Endpoint, y: Endpoint, p: PathId)
    requires Link(v, y, x) && p in x.processing && x.processing[p].0 in y.packets
    requires x.processing[p].1 >= |Packets.Received(v, y.packets[x.processing[p].0])|
    ensures Link(v, y, x.(processing := x.processing - {p}))
  {
    ReaderDone(x.processing, x.recorded, p);
    HandledAll(v, x.recv, x.lost, x.recorded, x.processing, y.packets, p);
  }

  lemma NextIn(v: Variant, x: Endpoint, y: Endpoint, p: PathId)
    requires Link(v, y, x) && p in x.processing
    requires var (id, n) := x.processing[p];
             && id in y.packets && n < |y.packets[id]|
             && Accounted(x.recv, x.lost, Packets.Received(v, y.packets[id])[n])
    ensures Link(v, y, x.(processing := x.processing[p := (x.processing[p].0, x.processing[p].1 + 1)]))
  {
    ReaderNext(x.processing, x.recorded, p);
    HandledOneMore(v, x.recv, x.lost, x.recorded, x.processing, y.packets, p);
  }

  // ----- Stream frames -----

  lemma MissedIn(v: Variant, x: Endpoint, y: Endpoint, f: Frame)
    requires Link(v, y, x) && f.Stream? && FrameOk(y.tiles, f)
    ensures Link(v, y, x.(missed := x.missed + {f.streamId}, lost := x.lost + {(f.streamId, f.offset)}))
  {
    var lost' := x.lost + {(f.streamId, f.offset)};
    MissedLost(v, x.lost, x.missed, y.tiles, f);
    HandledStays(v, x.recv, x.lost, x.recv, lost', x.recorded, x.processing, y.packets);
  }

  lemma MissedLost(v: Variant, lost: set<(nat, nat)>, missed: set<nat>, tiles: map<nat, Tiling>, f: Frame)
    requires LostOk(lost, tiles) && LostUnopened(v, lost, missed) && f.Stream? && FrameOk(tiles, f)
    ensures LostOk(lost + {(f.streamId, f.offset)}, tiles)
    ensures LostUnopened(v, lost + {(f.streamId, f.offset)}, missed + {f.streamId})
  {
  }

  lemma MissedKept(v: Variant, x: Endpoint, y: Endpoint, f: Frame)
    requires Before(v, x, y) && f.Stream? && FrameOk(y.tiles, f)
    ensures Kept(v, x.(missed := x.missed + {f.streamId}, lost := x.lost + {(f.streamId, f.offset)}), y)
  {
    MissedIn(v, x, y, f);
  }

  lemma DeliveredFlow(v: Variant, r: Recv, delivered: seq<byte>, w: seq<byte>, t: Tiling, o: nat)
    requires FlowOk(r, delivered, w, t) && t.Valid() && o in t.tiles && IsSlice(w, o, t.tiles[o])
    ensures var r' := HandleFrame(v, r, o, t.tiles[o], false);
            && FlowOk(r', delivered, w, t) && Held(r', o)
            && (v.AsWritten? && Discarded(r, o, t.tiles[o]).Some? ==> Discarded(r, o, t.tiles[o]).value in t.tiles)
            && (forall k: nat :: Held(r, k) && (v.AsWritten? ==> Discarded(r, o, t.tiles[o]) != Some(k)) ==>
                                   Held(r', k))
            && (forall k :: k in t.tiles && Held(r', k) ==> Held(r, k) || k == o)
  {
    StepHoldsOnly(v, t, r, o);
    HandleFrameFaithful(v, r, o, t.tiles[o], false, delivered, w);
    if v.Repaired? {
      RepairedStep(t, r, o);
    } else {
      AsWrittenStep(t, r, o);
    }
  }

  lemma DeliveredFlows(recv: map<nat, Recv>, delivered: map<nat, seq<byte>>, written: map<nat, seq<byte>>,
                       tiles: map<nat, Tiling>, st: nat, r': Recv)
    requires FlowsOk(recv, delivered, written, tiles)
    requires FlowOk(r', At(delivered, st), At(written, st), TilesAt(tiles, st))
    ensures FlowsOk(recv[st := r'], delivered, written, tiles)
  {
  }

  /** What is thrown away is a frame of the stream, and nothing else is let go. */
  lemma ThrownParts(v: Variant, x: Endpoint, f: Frame, tiles: map<nat, Tiling>)
    requires f.Stream? && f.streamId in x.recv && f.streamId in tiles && LostOk(x.lost, tiles)
    requires var thrown := Discarded(x.recv[f.streamId], f.offset, f.data);
             && (v.AsWritten? && thrown.Some? ==> thrown.value in tiles[f.streamId].tiles)
             && var r' := RecvAfter(v, x.recv, f)[f.streamId];
                Held(r', f.offset)
                && forall k: nat :: Held(x.recv[f.streamId], k) && (v.AsWritten? ==> thrown != Some(k)) ==> Held(r', k)
    ensures var recv', lost' := RecvAfter(v, x.recv, f), LostAfter(v, x, f);
            && LostOk(lost', tiles) && x.lost <= lost' && Holds(x.recv, recv', lost') && Accounted(recv', lost', f)
  {
  }

  lemma DeliveredHeld(v: Variant, x: Endpoint, y: Endpoint, f: Frame)
    requires HeldOk(v, x.recv, y.tiles, y.packets) && f.Stream? && f.streamId in x.recv && f.streamId in y.tiles
    requires Readable(v, y.packets, f.streamId, f.offset)
    requires var r' := RecvAfter(v, x.recv, f)[f.streamId];
             forall k :: k in y.tiles[f.streamId].tiles && Held(r', k) ==> Held(x.recv[f.streamId], k) || k == f.offset
    ensures HeldOk(v, RecvAfter(v, x.recv, f), y.tiles, y.packets)
  {
  }

  /** A frame of the sender's streams at a receiver that has its stream. */
  lemma DeliveredParts(v: Variant, x: Endpoint, y: Endpoint, f: Frame)
    requires FlowsOk(x.recv, x.delivered, y.written, y.tiles) && StreamsOk(y.send, y.written, y.tiles)
    requires f.Stream? && f.streamId in x.recv && FrameOk(y.tiles, f) && LostOk(x.lost, y.tiles)
    requires HeldOk(v, x.recv, y.tiles, y.packets) && Readable(v, y.packets, f.streamId, f.offset)
    ensures var recv', lost' := RecvAfter(v, x.recv, f), LostAfter(v, x, f);
            && FlowsOk(recv', x.delivered, y.written, y.tiles) && LostOk(lost', y.tiles)
            && HeldOk(v, recv', y.tiles, y.packets)
            && x.lost <= lost' && Holds(x.recv, recv', lost') && Accounted(recv', lost', f)
  {
    var st := f.streamId;
    StreamAndFlow(x, y, st);
    DeliveredFlow(v, x.recv[st], At(x.delivered, st), y.written[st], y.tiles[st], f.offset);
    DeliveredFlows(x.recv, x.delivered, y.written, y.tiles, st, HandleFrame(v, x.recv[st], f.offset, f.data, false));
    ThrownParts(v, x, f, y.tiles);
    DeliveredHeld(v, x, y, f);
  }

  lemma StreamAndFlow(x: Endpoint, y: Endpoint, st: nat)
    requires FlowsOk(x.recv, x.delivered, y.written, y.tiles) && StreamsOk(y.send, y.written, y.tiles)
    requires st in x.recv && st in y.tiles
    ensures st in y.written && y.tiles[st].Valid() && TileSlices(y.tiles[st], y.written[st])
    ensures FlowOk(x.recv[st], At(x.delivered, st), y.written[st], y.tiles[st])
  {
    assert StreamOk(y.send[st], y.written[st], y.tiles[st]);
    assert FlowOk(x.recv[st], At(x.delivered, st), At(y.written, st), TilesAt(y.tiles, st));
  }

  lemma DeliveredIn(v: Variant, x: Endpoint, y: Endpoint, recv': map<nat, Recv>, lost': set<(nat, nat)>)
    requires Link(v, y, x) && FlowsOk(recv', x.delivered, y.written, y.tiles) && LostOk(lost', y.tiles)
    requires LostUnopened(v, lost', x.missed) && HeldOk(v, recv', y.tiles, y.packets)
    requires x.lost <= lost' && Holds(x.recv, recv', lost')
    ensures Link(v, y, x.(recv := recv', lost := lost'))
  {
    HandledStays(v, x.recv, x.lost, recv', lost', x.recorded, x.processing, y.packets);
  }

  lemma RecvKept(v: Variant, x: Endpoint, y: Endpoint, recv': map<nat, Recv>, lost': set<(nat, nat)>)
    requires Before(v, x, y) && FlowsOk(recv', x.delivered, y.written, y.tiles) && recv'.Keys == x.recv.Keys
    requires LostOk(lost', y.tiles) && LostUnopened(v, lost', x.missed) && HeldOk(v, recv', y.tiles, y.packets)
    requires x.lost <= lost' && Holds(x.recv, recv', lost')
    ensures Kept(v, x.(recv := recv', lost := lost'), y)
  {
    hide Balanced, TableOk, StreamsOk, FramesOk, AckFramesOk, ReceivedOk, JobOk, HomeOk, FlowsOk, AckedOk, HandledOk,
      HeldOk, HomeOnly;
    DeliveredIn(v, x, y, recv', lost');
  }

  lemma StreamsOf(x: Endpoint)
    requires Local(x)
    ensures StreamsOk(x.send, x.written, x.tiles) && FramesOk(x.packets, x.tiles) && AckFramesOk(x.packets, x.recorded)
  {
  }

  lemma FlowsOf(v: Variant, x: Endpoint, y: Endpoint)
    requires Link(v, x, y)
    ensures FlowsOk(y.recv, y.delivered, x.written, x.tiles) && ReadersOk(y.processing, y.recorded)
    ensures LostOk(y.lost, x.tiles) && LostUnopened(v, y.lost, y.missed) && HeldOk(v, y.recv, x.tiles, x.packets)
  {
  }

  // ----- ACK frames -----

  lemma AckTakes(s: State, l: Ledger, p: PathId, f: Frame, recorded: set<PacketId>)
    requires f.Ack? && AckFrameOk(p, f, recorded) && AckedOk(l.fates, recorded)
    ensures var s', l' := OnAck(s, p, f.ranges), Account(l, s, AckOp(p, f.ranges));
            && Shrunk(s, s') && AckedOk(l'.fates, recorded)
            && (forall id :: id in l'.fates && (id !in l.fates || l'.fates[id] != l.fates[id]) ==>
                               l'.fates[id] == Acked)
  {
    forall id | id in AckedBy(s, p, f.ranges)
      ensures id in recorded
    {
      assert id == PacketId(p, id.seqNum);
    }
  }

  lemma AckLocal(x: Endpoint, s': State, l': Ledger)
    requires Local(x) && Balanced(s', l') && Shrunk(x.packer, s')
    requires forall id :: id in l'.fates && (id !in x.ledger.fates || l'.fates[id] != x.ledger.fates[id]) ==>
                            l'.fates[id] == Acked
    ensures Local(x.(packer := s', ledger := l'))
  {
    ShrunkTable(x.packer, s', x.packets, x.net, x.net, x.tasks, x.tasks, x.ledger.fates, l'.fates);
  }

  lemma AckKept(v: Variant, x: Endpoint, y: Endpoint, p: PathId, f: Frame)
    requires Before(v, x, y) && f.Ack? && AckFrameOk(p, f, y.recorded)
    ensures Kept(v, x.(packer := OnAck(x.packer, p, f.ranges),
                       ledger := Account(x.ledger, x.packer, AckOp(p, f.ranges))), y)
  {
    AckedOf(v, x, y);
    AckTakes(x.packer, x.ledger, p, f, y.recorded);
    AckBalanced(x.packer, x.ledger, p, f.ranges);
    AckLocal(x, OnAck(x.packer, p, f.ranges), Account(x.ledger, x.packer, AckOp(p, f.ranges)));
    LedgerOut(v, x, y, OnAck(x.packer, p, f.ranges), Account(x.ledger, x.packer, AckOp(p, f.ranges)));
  }

  lemma LedgerOut(v: Variant, x: Endpoint, y: Endpoint, s': State, l': Ledger)
    requires Link(v, x, y) && AckedOk(l'.fates, y.recorded)
    ensures Link(v, x.(packer := s', ledger := l'), y)
  {
  }

  lemma AckedOf(v: Variant, x: Endpoint, y: Endpoint)
    requires Before(v, x, y)
    ensures AckedOk(x.ledger.fates, y.recorded) && Balanced(x.packer, x.ledger)
  {
  }

  // ----- The next frame -----

  /** The frame was dispatched without harm. */
  ghost predicate Dispatched(v: Variant, x: Endpoint, x': Endpoint, y: Endpoint, f: Frame) {
    Kept(v, x', y) && Accounted(x'.recv, x'.lost, f) && x'.processing == x.processing
  }

  lemma DispatchMissed(v: Variant, x: Endpoint, y: Endpoint, f: Frame)
    requires Before(v, x, y) && f.Stream? && FrameOk(y.tiles, f)
    ensures Dispatched(v, x, x.(missed := x.missed + {f.streamId}, lost := x.lost + {(f.streamId, f.offset)}), y, f)
  {
    MissedKept(v, x, y, f);
  }

  lemma DeliveredPartsOf(v: Variant, x: Endpoint, y: Endpoint, f: Frame)
    requires Before(v, x, y) && f.Stream? && f.streamId in x.recv && FrameOk(y.tiles, f)
    requires Readable(v, y.packets, f.streamId, f.offset)
    ensures var recv', lost' := RecvAfter(v, x.recv, f), LostAfter(v, x, f);
            && FlowsOk(recv', x.delivered, y.written, y.tiles) && recv'.Keys == x.recv.Keys
            && LostOk(lost', y.tiles) && LostUnopened(v, lost', x.missed) && HeldOk(v, recv', y.tiles, y.packets)
            && x.lost <= lost' && Holds(x.recv, recv', lost')
            && Accounted(recv', lost', f)
  {
    StreamsOf(y);
    FlowsOf(v, y, x);
    DeliveredParts(v, x, y, f);
    SameKeys(x.recv, f.streamId, HandleFrame(v, x.recv[f.streamId], f.offset, f.data, f.fin));
  }

  lemma DispatchDelivered(v: Variant, x: Endpoint, y: Endpoint, f: Frame)
    requires Before(v, x, y) && f.Stream? && f.streamId in x.recv && FrameOk(y.tiles, f)
    requires Readable(v, y.packets, f.streamId, f.offset)
    ensures Dispatched(v, x, x.(recv := RecvAfter(v, x.recv, f), lost := LostAfter(v, x, f)), y, f)
  {
    DeliveredPartsOf(v, x, y, f);
    RecvKept(v, x, y, RecvAfter(v, x.recv, f), LostAfter(v, x, f));
  }

  lemma DispatchOther(v: Variant, x: Endpoint, y: Endpoint, f: Frame)
    requires Before(v, x, y) && !f.Stream?
    ensures Dispatched(v, x, x, y, f)
  {
  }

  lemma DispatchAck(v: Variant, x: Endpoint, y: Endpoint, p: PathId, f: Frame)
    requires Before(v, x, y) && f.Ack? && AckFrameOk(p, f, y.recorded)
    ensures Dispatched(v, x, x.(packer := OnAck(x.packer, p, f.ranges),
                                ledger := Account(x.ledger, x.packer, AckOp(p, f.ranges))), y, f)
  {
    AckKept(v, x, y, p, f);
  }

  lemma DispatchKept(v: Variant, x: Endpoint, y: Endpoint, p: PathId, f: Frame)
    requires Before(v, x, y) && FrameOk(y.tiles, f) && AckFrameOk(p, f, y.recorded)
    requires f.Stream? ==> Readable(v, y.packets, f.streamId, f.offset)
    ensures Dispatched(v, x, Dispatch(v, x, p, f), y, f)
  {
    hide Dispatched, Local, Link, Readable, RecvAfter, LostAfter, OnAck, Account;
    if f.Stream? {
      if f.streamId !in x.recv {
        DispatchMissed(v, x, y, f);
      } else {
        DispatchDelivered(v, x, y, f);
      }
    } else if f.Ack? {
      DispatchAck(v, x, y, p, f);
    } else {
      DispatchOther(v, x, y, f);
    }
  }

  lemma FramesOfPacket(v: Variant, y: Endpoint, id: PacketId, k: nat)
    requires Local(y) && id in y.packets && k < |y.packets[id]|
    ensures var f := Packets.Received(v, y.packets[id])[k];
            && FrameOk(y.tiles, f) && AckFrameOk(id.path, f, y.recorded)
            && (f.Stream? ==> Readable(v, y.packets, f.streamId, f.offset))
  {
    var f := Packets.Received(v, y.packets[id])[k];
    assert f in Packets.Received(v, y.packets[id]);
    var i :| 0 <= i < |y.packets[id]| && y.packets[id][i] == f;
    assert FrameOk(y.tiles, y.packets[id][i]);
    assert AckFrameOk(id.path, y.packets[id][i], y.recorded);
    if f.Stream? {
      assert IsFrame(Packets.Received(v, y.packets[id])[k], f.streamId, f.offset);
    }
  }

  lemma LastFrameKept(v: Variant, x: Endpoint, y: Endpoint, p: PathId)
    requires Before(v, x, y) && p in x.processing && x.processing[p].0 in y.packets
    requires x.processing[p].1 >= |Packets.Received(v, y.packets[x.processing[p].0])|
    ensures Kept(v, x.(processing := x.processing - {p}), y)
  {
    DoneIn(v, x, y, p);
  }

  lemma NextFrameKept(v: Variant, x: Endpoint, x': Endpoint, y: Endpoint, p: PathId)
    requires p in x.processing && x.processing[p].0 in y.packets
    requires x.processing[p].1 < |Packets.Received(v, y.packets[x.processing[p].0])|
    requires Dispatched(v, x, x', y, Packets.Received(v, y.packets[x.processing[p].0])[x.processing[p].1])
    ensures Kept(v, x'.(processing := x.processing[p := (x.processing[p].0, x.processing[p].1 + 1)]), y)
  {
    hide Balanced, TableOk, StreamsOk, FramesOk, AckFramesOk, ReceivedOk, JobOk, HomeOk, FlowsOk, AckedOk, HandledOk,
      HeldOk, HomeOnly;
    NextIn(v, x', y, p);
  }

  lemma FrameInHand(v: Variant, x: Endpoint, y: Endpoint, p: PathId)
    requires Before(v, x, y) && p in x.processing && x.processing[p].0 in y.packets
    requires x.processing[p].1 < |Packets.Received(v, y.packets[x.processing[p].0])|
    ensures var f := Packets.Received(v, y.packets[x.processing[p].0])[x.processing[p].1];
            && FrameOk(y.tiles, f) && AckFrameOk(p, f, y.recorded)
            && (f.Stream? ==> Readable(v, y.packets, f.streamId, f.offset))
  {
    FlowsOf(v, y, x);
    FramesOfPacket(v, y, x.processing[p].0, x.processing[p].1);
  }

  lemma HandleNextKept(v: Variant, x: Endpoint, y: Endpoint, p: PathId)
    requires Before(v, x, y) && p in x.processing && x.processing[p].0 in y.packets
    ensures Kept(v, FrameHandled(v, x, p, Packets.Received(v, y.packets[x.processing[p].0])), y)
  {
    hide Balanced, TableOk, StreamsOk, FramesOk, AckFramesOk, ReceivedOk, JobOk, HomeOk, FlowsOk, AckedOk, HandledOk,
      HeldOk, HomeOnly;
    var frames := Packets.Received(v, y.packets[x.processing[p].0]);
    if x.processing[p].1 >= |frames| {
      LastFrameKept(v, x, y, p);
    } else {
      FrameInHand(v, x, y, p);
      DispatchKept(v, x, y, p, frames[x.processing[p].1]);
      NextFrameKept(v, x, Dispatch(v, x, p, frames[x.processing[p].1]), y, p);
    }
  }
}
