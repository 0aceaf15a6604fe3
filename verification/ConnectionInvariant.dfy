/** What every step of every run keeps, at each endpoint and between the two. */
module ConnectionInvariant {
  import opened AckRanges
  import opened Bytes
  import opened Common
  import opened Connection
  import opened Frames
  import opened Packers
  import opened PackerRuns
  import opened RecvStreams
  import opened SendStreams
  import Packets

  // ----- At one endpoint -----

  /** A stream frame is one of the frames taken from its stream. */
  predicate FrameOk(tiles: map<nat, Tiling>, f: Frame) {
    f.Stream? ==>
      && !f.fin && f.streamId in tiles
      && f.offset in tiles[f.streamId].tiles && tiles[f.streamId].tiles[f.offset] == f.data
  }

  ghost predicate FramesOk(packets: map<PacketId, seq<Frame>>, tiles: map<nat, Tiling>) {
    forall id, i :: id in packets && 0 <= i < |packets[id]| ==> FrameOk(tiles, packets[id][i])
  }

  ghost predicate TileSlices(t: Tiling, w: seq<byte>) {
    forall o :: o in t.tiles ==> IsSlice(w, o, t.tiles[o])
  }

  /** What was written is what was taken, in frames, and what is still buffered. */
  ghost predicate StreamOk(send: Send, w: seq<byte>, t: Tiling) {
    && send.Consistent() && NonEmptyChunks(send.chunks)
    && t.Valid() && t.n == send.base && TileSlices(t, w)
    && |w| == send.writeOffset && w[send.base..] == send.Buffered()
  }

  ghost predicate SameStreams<A, B, C>(a: map<nat, A>, b: map<nat, B>, c: map<nat, C>) {
    forall st :: (st in a <==> st in b) && (st in a <==> st in c)
  }

  ghost predicate StreamsOk(send: map<nat, Send>, written: map<nat, seq<byte>>, tiles: map<nat, Tiling>) {
    && SameStreams(send, written, tiles)
    && forall st :: st in send ==> StreamOk(send[st], written[st], tiles[st])
  }

  /** The table of pending packets is part of the history, and the queues are empty. */
  ghost predicate TableOk(s: State, packets: map<PacketId, seq<Frame>>, net: set<PacketId>, tasks: set<PacketId>,
                          fates: map<PacketId, Fate>)
  {
    && (forall id :: id in s.pending ==> id in packets && packets[id] == s.pending[id].frames)
    && (forall id :: id in packets ==> Assigned(s, id))
    && (forall id :: id in packets && id in fates ==> fates[id] != Fate.Rejected)
    && (forall id :: id in net || id in tasks ==> id in packets)
    && (forall p :: s.Queue(p) == [])
  }

  ghost predicate AckFrameOk(p: PathId, f: Frame, recorded: set<PacketId>) {
    f.Ack? ==> forall n: nat :: Covers(f.ranges, n) ==> PacketId(p, n) in recorded
  }

  /** ACK frames cover recorded packets only. */
  ghost predicate AckFramesOk(packets: map<PacketId, seq<Frame>>, recorded: set<PacketId>) {
    forall id, i :: id in packets && 0 <= i < |packets[id]| ==> AckFrameOk(id.path, packets[id][i], recorded)
  }

  /** Some packet recorded for sending on the same path acknowledges this one. */
  ghost predicate AckSent(packets: map<PacketId, seq<Frame>>, id: PacketId) {
    exists q, i :: q in packets && 0 <= i < |packets[q]| && Acknowledges(q.path, packets[q][i], id)
  }

  predicate Acknowledges(p: PathId, f: Frame, id: PacketId) {
    p == id.path && f.Ack? && Covers(f.ranges, id.seqNum)
  }

  predicate ToAck(received: map<PathId, set<nat>>, id: PacketId) {
    id.path in received && id.seqNum in received[id.path]
  }

  /** Every recorded packet is still to be acknowledged or has an ACK on the way. */
  ghost predicate ReceivedOk(received: map<PathId, set<nat>>, recorded: set<PacketId>,
                             packets: map<PacketId, seq<Frame>>)
  {
    && (forall id :: ToAck(received, id) ==> id in recorded)
    && (forall id :: id in recorded ==> ToAck(received, id) || AckSent(packets, id))
  }

  ghost predicate JobOk(job: Option<AckJob>, recorded: set<PacketId>, packets: map<PacketId, seq<Frame>>) {
    job.Some? ==>
      forall n: nat :: Covers(job.value.ranges, n) ==>
                         && PacketId(job.value.path, n) in recorded
                         && (job.value.submitted ==> AckSent(packets, PacketId(job.value.path, n)))
  }

  /** Without loss, each frame of a stream is in the packet noted for it. */
  ghost predicate HomeOk(lossless: bool, tiles: map<nat, Tiling>, home: map<(nat, nat), PacketId>,
                         packets: map<PacketId, seq<Frame>>)
  {
    lossless ==>
      forall st, o :: st in tiles && o in tiles[st].tiles ==>
                        && (st, o) in home && home[(st, o)] in packets
                        && Stream(st, o, false, tiles[st].tiles[o]) in packets[home[(st, o)]]
  }

  predicate HasHome(home: map<(nat, nat), PacketId>, f: Frame, id: PacketId) {
    f.Stream? ==> (f.streamId, f.offset) in home && home[(f.streamId, f.offset)] == id
  }

  /** A frame of a stream stands in the packet noted for it and in no other. */
  ghost predicate HomeOnly(home: map<(nat, nat), PacketId>, packets: map<PacketId, seq<Frame>>) {
    forall id, i :: id in packets && 0 <= i < |packets[id]| ==> HasHome(home, packets[id][i], id)
  }

  ghost predicate Local(x: Endpoint) {
    && Balanced(x.packer, x.ledger)
    && TableOk(x.packer, x.packets, x.net, x.tasks, x.ledger.fates)
    && StreamsOk(x.send, x.written, x.tiles)
    && SameStreams(x.send, x.recv, x.delivered)
    && FramesOk(x.packets, x.tiles)
    && AckFramesOk(x.packets, x.recorded)
    && ReceivedOk(x.received, x.recorded, x.packets)
    && JobOk(x.job, x.recorded, x.packets)
    && HomeOk(x.lossless, x.tiles, x.home, x.packets)
    && HomeOnly(x.home, x.packets)
  }

  // ----- Between a sender and a receiver -----

  /** The receiver has a prefix of the stream and further frames of it. */
  ghost predicate FlowOk(r: Recv, delivered: seq<byte>, w: seq<byte>, t: Tiling) {
    Faithful(r, delivered, w) && Good(t, r)
  }

  ghost predicate FlowsOk(recv: map<nat, Recv>, delivered: map<nat, seq<byte>>, written: map<nat, seq<byte>>,
                          tiles: map<nat, Tiling>)
  {
    forall st :: st in recv ==> FlowOk(recv[st], At(delivered, st), At(written, st), TilesAt(tiles, st))
  }

  /** Only recorded packets count as acknowledged. */
  ghost predicate AckedOk(fates: map<PacketId, Fate>, recorded: set<PacketId>) {
    forall id :: id in fates && fates[id] == Acked ==> id in recorded
  }

  /** What was received had been sent. */
  ghost predicate SentOk(net: set<PacketId>, recorded: set<PacketId>) {
    forall id :: id in recorded ==> id in net
  }

  ghost predicate ReadersOk(processing: map<PathId, (PacketId, nat)>, recorded: set<PacketId>) {
    forall p :: p in processing ==> processing[p].0 in recorded && processing[p].0.path == p
  }

  /** The number of a packet's frames already dispatched since it was last received. */
  function Done(processing: map<PathId, (PacketId, nat)>, id: PacketId, n: nat): nat {
    if id.path in processing && processing[id.path].0 == id then Min(processing[id.path].1, n) else n
  }

  /** A dispatched stream frame is held, or was lost at some time. */
  predicate Accounted(recv: map<nat, Recv>, lost: set<(nat, nat)>, f: Frame) {
    f.Stream? ==> (f.streamId, f.offset) in lost || (f.streamId in recv && Held(recv[f.streamId], f.offset))
  }

  /** Lost frames are frames of the stream. */
  ghost predicate LostOk(lost: set<(nat, nat)>, tiles: map<nat, Tiling>) {
    forall q :: q in lost ==> q.0 in tiles && q.1 in tiles[q.0].tiles
  }

  /** Repaired, frames are lost only while their stream does not exist. */
  ghost predicate LostUnopened(v: Variant, lost: set<(nat, nat)>, missed: set<nat>) {
    v.Repaired? ==> forall q :: q in lost ==> q.0 in missed
  }

  ghost predicate HandledOk(v: Variant, recv: map<nat, Recv>, lost: set<(nat, nat)>, recorded: set<PacketId>,
                            processing: map<PathId, (PacketId, nat)>, packets: map<PacketId, seq<Frame>>)
  {
    forall id, k :: id in recorded && id in packets
                    && 0 <= k < Done(processing, id, |Packets.Received(v, packets[id])|) ==>
                      Accounted(recv, lost, Packets.Received(v, packets[id])[k])
  }

  predicate IsFrame(f: Frame, st: nat, o: nat) {
    f.Stream? && f.streamId == st && f.offset == o
  }

  /** Some packet, as it reads back, carries this frame. */
  ghost predicate Readable(v: Variant, packets: map<PacketId, seq<Frame>>, st: nat, o: nat) {
    exists id, k :: id in packets && 0 <= k < |Packets.Received(v, packets[id])|
                    && IsFrame(Packets.Received(v, packets[id])[k], st, o)
  }

  /** Only frames that a packet carries are held, and all below what is expected next were carried. */
  ghost predicate HeldOk(v: Variant, recv: map<nat, Recv>, tiles: map<nat, Tiling>,
                         packets: map<PacketId, seq<Frame>>)
  {
    forall st, o :: st in recv && st in tiles && o in tiles[st].tiles && Held(recv[st], o) ==>
                      Readable(v, packets, st, o)
  }

  /** The data flowing from `x` to `y`. */
  ghost predicate Link(v: Variant, x: Endpoint, y: Endpoint) {
    && SentOk(x.net, y.recorded)
    && FlowsOk(y.recv, y.delivered, x.written, x.tiles)
    && AckedOk(x.ledger.fates, y.recorded)
    && ReadersOk(y.processing, y.recorded)
    && LostOk(y.lost, x.tiles) && LostUnopened(v, y.lost, y.missed)
    && HandledOk(v, y.recv, y.lost, y.recorded, y.processing, x.packets)
    && HeldOk(v, y.recv, x.tiles, x.packets)
  }

  ghost predicate Invariant(v: Variant, s: System) {
    Local(s.left) && Local(s.right) && Link(v, s.left, s.right) && Link(v, s.right, s.left)
  }

  /** What a step of `x` has to keep. */
  ghost predicate Kept(v: Variant, x': Endpoint, y: Endpoint) {
    Local(x') && Link(v, x', y) && Link(v, y, x')
  }

  ghost predicate Before(v: Variant, x: Endpoint, y: Endpoint) {
    Local(x) && Local(y) && Link(v, x, y) && Link(v, y, x)
  }
}
