/** Two endpoints joined by a network that may lose, repeat and reorder packets. A submission is
    one step, from popping to writing; each other step is one critical section of the code at one
    endpoint. The loops and readers interleave freely. */
module Connection {
  import opened AckRanges
  import opened Assembly
  import opened Bytes
  import opened Common
  import opened Frames
  import opened Packers
  import opened PackerRuns
  import opened RecvStreams
  import opened SendStreams
  import Packets

  /** The ACK worker between GetAckRanges and cleanupAckedPackets. */
  datatype AckJob = AckJob(path: PathId, ranges: seq<AckRange>, submitted: bool)

  datatype Endpoint = Endpoint(
    packer: State,
    send: map<nat, Send>,
    recv: map<nat, Recv>,
    received: map<PathId, set<nat>>,             // the multiplexer's numbers to acknowledge
    job: Option<AckJob>,
    processing: map<PathId, (PacketId, nat)>,    // each path's reader: its packet and the next frame
    tasks: set<PacketId>,                        // collected by the retransmit loop, not yet written
    // History, not part of the code's state:
    ledger: Ledger,
    written: map<nat, seq<byte>>,                // what the application wrote
    delivered: map<nat, seq<byte>>,              // what Read returned to it
    tiles: map<nat, Tiling>,                     // the frames taken from each send stream
    packets: map<PacketId, seq<Frame>>,          // every packet recorded for sending
    net: set<PacketId>,                          // packets put on the network
    recorded: set<PacketId>,                     // peer packets ever recorded as received
    home: map<(nat, nat), PacketId>,             // the packet that carries a stream's frame
    lossless: bool,                              // every frame taken was recorded in a packet
    missed: set<nat>,                            // streams that did not exist when a frame came
    lost: set<(nat, nat)>                        // stream frames that were handled and not kept
  )

  const NO_TILES := Tiling(map[], 0)

  function NewEndpoint(max: nat): Endpoint {
    Endpoint(State(max, map[], map[], map[], {}, map[], 0, 0), map[], map[], map[], None, map[], {},
             NO_HISTORY, map[], map[], map[], map[], {}, {}, map[], true, {}, {})
  }

  datatype Step =
    | Create(stream: nat)
    | AppWrite(stream: nat, data: seq<byte>)
    | Read(stream: nat, room: nat)
    | Register(path: PathId)
    | Control(path: PathId, frame: Frame, now: nat, err: WriteError)
    | Submit(path: PathId, stream: nat, now: nat, err: WriteError)
    | RetransmitCollect(now: nat)
    | RetransmitUpdate(id: PacketId, err: WriteError, now: nat, clock: nat)
    | Cancel(stream: nat)
    | AckSnapshot(path: PathId, ranges: seq<AckRange>)
    | AckSubmit(now: nat, err: WriteError)
    | AckCleanup
    | Receive(id: PacketId)
    | HandleNext(path: PathId)

  /** The frames of a stream after these were taken as well. */
  function Extend(t: Tiling, fs: seq<Frame>): Tiling
    requires StreamFrames(fs)
    decreases |fs|
  {
    if fs == [] then t
    else Extend(Tiling(t.tiles[t.n := fs[0].data], t.n + |fs[0].data|), fs[1..])
  }

  /** The history of packets with the one of this submission. */
  function WithPacket(packets: map<PacketId, seq<Frame>>, s': State, r: SubmitResult): map<PacketId, seq<Frame>> {
    if r.Submitted? && r.id in s'.pending then packets[r.id := s'.pending[r.id].frames] else packets
  }

  /** The network after the write of this submission. */
  function WithWrite(net: set<PacketId>, r: SubmitResult): set<PacketId> {
    if r.Submitted? && r.err.NoError? then net + {r.id} else net
  }

  function Outgoing(x: Endpoint, s': State, r: SubmitResult): Endpoint {
    x.(packer := s', packets := WithPacket(x.packets, s', r), net := WithWrite(x.net, r),
       ledger := AccountSubmit(x.ledger, r))
  }

  function SubmitOne(x: Endpoint, p: PathId, f: Frame, now: nat, err: WriteError): Endpoint {
    var (s', r) := SubmitFrame(x.packer, p, f, 0, now, err);
    Outgoing(x, s', r)
  }

  function SubmitStream(x: Endpoint, p: PathId, st: nat, now: nat, err: WriteError): Endpoint
    requires st in x.send && st in x.tiles
  {
    var fs := Popped(st, x.send[st], x.packer.maxPacketSize).0;
    PopLoopFrames(st, x.send[st].base, x.send[st].chunks, x.packer.maxPacketSize);
    var (s', send', r) := SubmitFromSendStream(x.packer, p, st, x.send[st], now, err);
    Outgoing(x, s', r).(
      send := x.send[st := send'], tiles := x.tiles[st := Extend(x.tiles[st], fs)],
      home := WithHomes(x.home, st, fs, r),
      lossless := x.lossless && (fs == [] || AllRecorded(s', r, fs)))
  }

  function WithHomes(home: map<(nat, nat), PacketId>, st: nat, fs: seq<Frame>, r: SubmitResult):
    map<(nat, nat), PacketId>
    requires StreamFrames(fs)
  {
    if r.Submitted? then home + Homes(st, fs, r.id) else home
  }

  function Homes(st: nat, fs: seq<Frame>, id: PacketId): map<(nat, nat), PacketId>
    requires StreamFrames(fs)
  {
    map i | 0 <= i < |fs| :: (st, fs[i].offset) := id
  }

  function RecvAfter(v: Variant, recv: map<nat, Recv>, f: Frame): map<nat, Recv>
    requires f.Stream? && f.streamId in recv
  {
    recv[f.streamId := HandleFrame(v, recv[f.streamId], f.offset, f.data, f.fin)]
  }

  /** As written, the drain loop may throw away another frame of the stream. */
  function LostAfter(v: Variant, x: Endpoint, f: Frame): set<(nat, nat)>
    requires f.Stream? && f.streamId in x.recv
  {
    var thrown := Discarded(x.recv[f.streamId], f.offset, f.data);
    if v.AsWritten? && thrown.Some? then x.lost + {(f.streamId, thrown.value)} else x.lost
  }

  /** One frame of a received packet, as PushPacket dispatches it. */
  function Dispatch(v: Variant, x: Endpoint, p: PathId, f: Frame): Endpoint {
    match f
    case Stream(st, o, _, _) =>
      if st !in x.recv then x.(missed := x.missed + {st}, lost := x.lost + {(st, o)})
      else x.(recv := RecvAfter(v, x.recv, f), lost := LostAfter(v, x, f))
    case Ack(_, _, ranges) =>
      x.(packer := OnAck(x.packer, p, ranges), ledger := Account(x.ledger, x.packer, AckOp(p, ranges)))
    case _ => x
  }

  function Largest(rs: seq<AckRange>): nat
    requires rs != []
  {
    if |rs| == 1 then rs[0].largest
    else
      var m := Largest(rs[1..]);
      if rs[0].largest > m then rs[0].largest else m
  }

  ghost predicate Enabled(x: Endpoint, y: Endpoint, step: Step) {
    match step
    case Create(st) => st !in x.send
    case AppWrite(st, d) => st in x.send && d != []
    case Read(st, _) => st in x.recv
    case Control(_, f, _, _) => !f.Stream? && !f.Ack?
    case Submit(_, st, _, _) => st in x.send
    case RetransmitCollect(_) => x.tasks == {}
    case RetransmitUpdate(id, _, _, _) => id in x.tasks
    case AckSnapshot(p, ranges) =>
      x.job.None? && ranges != [] && p in x.received && Describes(ranges, x.received[p])
    case AckSubmit(_, _) => x.job.Some? && !x.job.value.submitted && x.job.value.ranges != []
    case AckCleanup => x.job.Some? && x.job.value.submitted
    case Receive(id) =>
      id in y.net && id in y.packets && |y.packets[id]| <= Packets.MAX_FRAMES && id.path !in x.processing
    case HandleNext(p) => p in x.processing && x.processing[p].0 in y.packets
    case _ => true
  }

  // ----- The steps -----

  function Created(x: Endpoint, st: nat): Endpoint {
    x.(send := x.send[st := EMPTY_SEND], recv := x.recv[st := EMPTY_RECV],
       written := x.written[st := []], delivered := x.delivered[st := []], tiles := x.tiles[st := NO_TILES])
  }

  function Wrote(x: Endpoint, st: nat, d: seq<byte>): Endpoint
    requires st in x.send
  {
    x.(send := x.send[st := Written(x.send[st], d)], written := x.written[st := At(x.written, st) + d])
  }

  function ReadOut(x: Endpoint, st: nat, room: nat): Endpoint
    requires st in x.recv
  {
    var r := x.recv[st];
    var n := Min(room, |r.readBuf|);
    x.(recv := x.recv[st := r.(readBuf := r.readBuf[n..])],
       delivered := x.delivered[st := At(x.delivered, st) + r.readBuf[..n]])
  }

  function Collected(x: Endpoint, now: nat): Endpoint {
    x.(packer := Collect(x.packer, now), tasks := Tasks(x.packer, now),
       ledger := Account(x.ledger, x.packer, CollectOp(now)))
  }

  function Updated(x: Endpoint, id: PacketId, err: WriteError, now: nat, clock: nat): Endpoint {
    x.(packer := Update(x.packer, id, err, now, clock), tasks := x.tasks - {id},
       net := if err.NoError? then x.net + {id} else x.net,
       ledger := Account(x.ledger, x.packer, UpdateOp(id, err, now, clock)))
  }

  function StreamCancelled(x: Endpoint, st: nat): Endpoint {
    x.(packer := Packers.Cancel(x.packer, st), ledger := Account(x.ledger, x.packer, CancelOp(st)))
  }

  function AckFrame(job: AckJob): Frame
    requires job.ranges != []
  {
    Ack(Largest(job.ranges), 0, job.ranges)
  }

  function AckSubmitted(x: Endpoint, job: AckJob, now: nat, err: WriteError): Endpoint
    requires job.ranges != []
  {
    var r := SubmitFrame(x.packer, job.path, AckFrame(job), 0, now, err).1;
    SubmitOne(x, job.path, AckFrame(job), now, err).(
      job := if r.Submitted? && r.err.NoError? then Some(job.(submitted := true)) else None)
  }

  function CleanedUp(x: Endpoint, job: AckJob): Endpoint {
    x.(received := Cleaned(x.received, job.path, job.ranges), job := None)
  }

  function PacketReceived(x: Endpoint, id: PacketId): Endpoint {
    x.(received := Recording(x.received, id.path, id.seqNum), recorded := x.recorded + {id},
       processing := x.processing[id.path := (id, 0)])
  }

  function FrameHandled(v: Variant, x: Endpoint, p: PathId, frames: seq<Frame>): Endpoint
    requires p in x.processing
  {
    if x.processing[p].1 >= |frames| then x.(processing := x.processing - {p})
    else
      Dispatch(v, x, p, frames[x.processing[p].1]).(
        processing := x.processing[p := (x.processing[p].0, x.processing[p].1 + 1)])
  }

  /** The step of `x` whose peer is `y`; a step that is not enabled changes nothing. */
  ghost function Act(v: Variant, x: Endpoint, y: Endpoint, step: Step): Endpoint {
    if !Enabled(x, y, step) then x
    else
      match step
      case Create(st) => Created(x, st)
      case AppWrite(st, d) => Wrote(x, st, d)
      case Read(st, room) => ReadOut(x, st, room)
      case Register(p) => x.(packer := Packers.Register(x.packer, p))
      case Control(p, f, now, err) => SubmitOne(x, p, f, now, err)
      case Submit(p, st, now, err) => if st in x.tiles then SubmitStream(x, p, st, now, err) else x
      case RetransmitCollect(now) => Collected(x, now)
      case RetransmitUpdate(id, err, now, clock) => Updated(x, id, err, now, clock)
      case Cancel(st) => StreamCancelled(x, st)
      case AckSnapshot(p, ranges) => x.(job := Some(AckJob(p, ranges, false)))
      case AckSubmit(now, err) =>
        if x.job.value.path !in x.packer.paths then x.(job := None)
        else AckSubmitted(x, x.job.value, now, err)
      case AckCleanup => CleanedUp(x, x.job.value)
      case Receive(id) => PacketReceived(x, id)
      case HandleNext(p) => FrameHandled(v, x, p, Packets.Received(v, y.packets[x.processing[p].0]))
  }

  function At(m: map<nat, seq<byte>>, st: nat): seq<byte> {
    if st in m then m[st] else []
  }

  function TilesAt(tiles: map<nat, Tiling>, st: nat): Tiling {
    if st in tiles then tiles[st] else NO_TILES
  }

  // ----- Runs -----

  datatype Side = Left | Right

  datatype System = System(left: Endpoint, right: Endpoint)

  datatype Event = Event(side: Side, step: Step)

  ghost function Next(v: Variant, s: System, e: Event): System {
    if e.side.Left? then s.(left := Act(v, s.left, s.right, e.step))
    else s.(right := Act(v, s.right, s.left, e.step))
  }

  /** `states` are the states of a run of these events from two new endpoints. */
  ghost predicate IsRun(v: Variant, max: nat, events: seq<Event>, states: seq<System>) {
    && |states| == |events| + 1 && states[0] == System(NewEndpoint(max), NewEndpoint(max))
    && forall i {:trigger events[i]} :: 0 <= i < |events| ==> states[i + 1] == Next(v, states[i], events[i])
  }
}
