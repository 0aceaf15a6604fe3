/** The packets of the two-endpoint runs as bytes: what the steps of the model take over from the
    history of recorded packets is what the wire delivers. */
module ConnectionWire {
  import opened AckRanges
  import opened Bytes
  import opened Common
  import opened Connection
  import opened Frames
  import opened Framing
  import opened Packers
  import opened RecvStreams
  import opened SendStreams
  import PackerRuns
  import Packets

  /** No recorded packet is larger than the packer's limit. */
  ghost predicate Bounded(x: Endpoint, max: nat) {
    x.packer.maxPacketSize == max && forall id :: id in x.packets ==> Packets.BodyLength(x.packets[id]) <= max
  }

  lemma SubmitFrameBounded(s: State, p: PathId, f: Frame, now: nat, err: WriteError)
    ensures var (s', r) := SubmitFrame(s, p, f, 0, now, err);
            && s'.maxPacketSize == s.maxPacketSize
            && (r.Submitted? && r.id in s'.pending ==> Packets.BodyLength(s'.pending[r.id].frames) <= s.maxPacketSize)
  {
  }

  lemma SubmitStreamBounded(s: State, p: PathId, id: nat, send: Send, now: nat, err: WriteError)
    ensures var (s', _, r) := SubmitFromSendStream(s, p, id, send, now, err);
            && s'.maxPacketSize == s.maxPacketSize
            && (r.Submitted? && r.id in s'.pending ==> Packets.BodyLength(s'.pending[r.id].frames) <= s.maxPacketSize)
  {
  }

  lemma SubmitOneBounded(x: Endpoint, p: PathId, f: Frame, now: nat, err: WriteError, max: nat)
    requires Bounded(x, max)
    ensures Bounded(SubmitOne(x, p, f, now, err), max)
  {
    hide SubmitFrame, Packets.BodyLength, PackerRuns.AccountSubmit;
    SubmitFrameBounded(x.packer, p, f, now, err);
  }

  lemma SubmitBounded(x: Endpoint, p: PathId, st: nat, now: nat, err: WriteError, max: nat)
    requires Bounded(x, max) && st in x.send && st in x.tiles
    ensures Bounded(SubmitStream(x, p, st, now, err), max)
  {
    hide SubmitFromSendStream, Popped, Packets.BodyLength, PackerRuns.AccountSubmit, WithHomes, Extend;
    SubmitStreamBounded(x.packer, p, st, x.send[st], now, err);
  }

  predicate Submits(step: Step) {
    step.Control? || step.Submit? || step.AckSubmit?
  }

  /** Nothing was recorded, and the limit is the same. */
  predicate SamePackets(x: Endpoint, x': Endpoint) {
    x'.packets == x.packets && x'.packer.maxPacketSize == x.packer.maxPacketSize
  }

  lemma HandledAddsNone(v: Variant, x: Endpoint, p: PathId, frames: seq<Frame>)
    requires p in x.processing
    ensures SamePackets(x, FrameHandled(v, x, p, frames))
  {
    hide Dispatch;
    if x.processing[p].1 < |frames| {
      DispatchAddsNone(v, x, p, frames[x.processing[p].1]);
    }
  }

  lemma DispatchAddsNone(v: Variant, x: Endpoint, p: PathId, f: Frame)
    ensures SamePackets(x, Dispatch(v, x, p, f))
  {
    if f.Stream? {
      StreamAddsNone(v, x, p, f);
    } else if f.Ack? {
      AckAddsNone(v, x, p, f);
    } else {
      assert Dispatch(v, x, p, f) == x;
    }
  }

  lemma StreamAddsNone(v: Variant, x: Endpoint, p: PathId, f: Frame)
    requires f.Stream?
    ensures SamePackets(x, Dispatch(v, x, p, f))
  {
    hide SamePackets, RecvAfter, LostAfter, PackerRuns.Account, OnAck;
    if f.streamId in x.recv {
      ReceiverAside(x, RecvAfter(v, x.recv, f), x.missed, LostAfter(v, x, f));
    } else {
      ReceiverAside(x, x.recv, x.missed + {f.streamId}, x.lost + {(f.streamId, f.offset)});
    }
  }

  lemma ReceiverAside(x: Endpoint, recv: map<nat, Recv>, missed: set<nat>, lost: set<(nat, nat)>)
    ensures SamePackets(x, x.(recv := recv, missed := missed, lost := lost))
  {
  }

  lemma AckAddsNone(v: Variant, x: Endpoint, p: PathId, f: Frame)
    requires f.Ack?
    ensures SamePackets(x, Dispatch(v, x, p, f))
  {
    hide RecvAfter, LostAfter, PackerRuns.Account, OnAck;
    AckKeepsLimit(x.packer, p, f.ranges);
  }

  lemma AckKeepsLimit(s: State, p: PathId, ranges: seq<AckRange>)
    ensures OnAck(s, p, ranges).maxPacketSize == s.maxPacketSize
  {
    hide AckedBy;
  }

  lemma LoopsAddNone(x: Endpoint, id: PacketId, st: nat, err: WriteError, now: nat, clock: nat)
    ensures SamePackets(x, Collected(x, now)) && SamePackets(x, Updated(x, id, err, now, clock))
    ensures SamePackets(x, StreamCancelled(x, st))
  {
    hide PackerRuns.Account, Tasks, GivenUp, Packers.Cancelled, Wait;
  }

  lemma OthersAddNoPacket(v: Variant, x: Endpoint, y: Endpoint, step: Step)
    requires !Submits(step)
    ensures SamePackets(x, Act(v, x, y, step))
  {
    hide FrameHandled, Collected, Updated, StreamCancelled, Packets.Received, Recording, Cleaned, Describes;
    match step
    case RetransmitCollect(now) => LoopsAddNone(x, PackerRuns.ONE, 0, NoError, now, 0);
    case RetransmitUpdate(id, err, now, clock) => LoopsAddNone(x, id, 0, err, now, clock);
    case Cancel(st) => LoopsAddNone(x, PackerRuns.ONE, st, NoError, 0, 0);
    case HandleNext(p) =>
      if Enabled(x, y, step) {
        HandledAddsNone(v, x, p, Packets.Received(v, y.packets[x.processing[p].0]));
      }
    case _ =>
  }

  lemma SubmissionBounded(v: Variant, x: Endpoint, y: Endpoint, step: Step, max: nat)
    requires Bounded(x, max) && Submits(step) && Enabled(x, y, step)
    ensures Bounded(Act(v, x, y, step), max)
  {
    hide SubmitOne, SubmitStream, Bounded;
    match step
    case Control(p, f, now, err) => SubmitOneBounded(x, p, f, now, err, max);
    case Submit(p, st, now, err) =>
      if st in x.tiles {
        SubmitBounded(x, p, st, now, err, max);
      }
    case AckSubmit(now, err) =>
      JobAside(x, None, max);
      SubmitOneBounded(x, x.job.value.path, AckFrame(x.job.value), now, err, max);
      JobAside(SubmitOne(x, x.job.value.path, AckFrame(x.job.value), now, err),
               Act(v, x, y, step).job, max);
  }

  lemma JobAside(x: Endpoint, job: Option<AckJob>, max: nat)
    requires Bounded(x, max)
    ensures Bounded(x.(job := job), max)
  {
  }

  lemma StepBounded(v: Variant, x: Endpoint, y: Endpoint, step: Step, max: nat)
    requires Bounded(x, max)
    ensures Bounded(Act(v, x, y, step), max)
  {
    hide Packets.BodyLength, Submits, Act, Enabled;
    if Submits(step) {
      if Enabled(x, y, step) {
        SubmissionBounded(v, x, y, step, max);
      } else {
        NotEnabled(v, x, y, step);
      }
    } else {
      OthersAddNoPacket(v, x, y, step);
    }
  }

  lemma NotEnabled(v: Variant, x: Endpoint, y: Endpoint, step: Step)
    requires !Enabled(x, y, step)
    ensures Act(v, x, y, step) == x
  {
  }

  lemma {:induction false} RunBounded(v: Variant, max: nat, events: seq<Event>, states: seq<System>, i: nat)
    requires IsRun(v, max, events, states) && i < |states|
    ensures Bounded(states[i].left, max) && Bounded(states[i].right, max)
  {
    hide Act, Bounded;
    if i == 0 {
      NewBounded(max);
    } else {
      var s, e := states[i - 1], events[i - 1];
      RunBounded(v, max, events, states, i - 1);
      assert states[i] == Connection.Next(v, s, e);
      StepBounded(v, s.left, s.right, e.step, max);
      StepBounded(v, s.right, s.left, e.step, max);
    }
  }

  lemma NewBounded(max: nat)
    ensures Bounded(NewEndpoint(max), max)
  {
  }

  /** A recorded packet as the packer serialises it. */
  function AsPacket(x: Endpoint, id: PacketId): Packets.Packet
    requires id in x.packets
  {
    Packets.Packet(Packets.Header(0, id.seqNum), x.packets[id])
  }

  function AsPackets(x: Endpoint, ids: seq<PacketId>): (ps: seq<Packets.Packet>)
    requires forall i :: 0 <= i < |ids| ==> ids[i] in x.packets
    ensures |ps| == |ids| && forall i :: 0 <= i < |ids| ==> ps[i] == AsPacket(x, ids[i])
  {
    seq(|ids|, i requires 0 <= i < |ids| => AsPacket(x, ids[i]))
  }

  /** In every state of every run: recorded packets written to a path in any order and repetition, and
      read there in any pieces, come out one for one with their number and the frames that the
      receiving steps take up, as long as each body leaves room for the second length prefix; the
      first that does not stops the reader. Numbers, offsets and lengths must fit their fields, and
      the frame count the receiver's limit. */
  lemma WireCarriesPackets(v: Variant, max: nat, events: seq<Event>, states: seq<System>, i: nat,
                           ids: seq<PacketId>, pieces: seq<seq<byte>>)
    requires IsRun(v, max, events, states) && i < |states| && max <= MAX_PACKET
    requires var x := states[i].left;
             forall k :: 0 <= k < |ids| ==>
                           && ids[k] in x.packets && AsPacket(x, ids[k]).Fits()
                           && |x.packets[ids[k]]| <= Packets.MAX_FRAMES
    ensures var x := states[i].left;
            Sendable(AsPackets(x, ids)) &&
            (Concat(pieces) == WriteAll(Outputs(AsPackets(x, ids))) ==>
              var pushed := Deframe(Concat(pieces)).packets;
              && |pushed| <= |ids|
              && (forall k :: 0 <= k < |pushed| ==>
                    Packets.DeserializePacket(v, pushed[k])
                    == Some(Packets.Packet(Packets.Header(0, ids[k].seqNum), Packets.Received(v, x.packets[ids[k]]))))
              && (|pushed| == |ids| <==>
                    forall k :: 0 <= k < |ids| ==> Packets.BodyLength(x.packets[ids[k]]) <= MAX_PACKET - 4))
  {
    hide IsRun, Deframe, Packets.DeserializePacket, Packets.BodyLength, Packets.Received, Outputs, WriteAll;
    RunBounded(v, max, events, states, i);
    var ps := AsPackets(states[i].left, ids);
    if Concat(pieces) == WriteAll(Outputs(ps)) {
      WireDelivery(ps, pieces, v);
      var pushed := Deframe(Concat(pieces)).packets;
      forall k | 0 <= k < |pushed|
        ensures ps[k] == AsPacket(states[i].left, ids[k])
      {
      }
    }
  }
}
