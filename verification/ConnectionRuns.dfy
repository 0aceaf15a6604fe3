/** What holds in every run of two endpoints over a network that loses, repeats and reorders. */
module ConnectionRuns {
  import opened AckRanges
  import opened Common
  import opened Connection
  import opened ConnectionAcks
  import opened ConnectionInvariant
  import opened ConnectionReception
  import opened ConnectionSteps
  import opened ConnectionStreams
  import opened ConnectionSubmissions
  import opened Frames
  import opened Packers
  import opened PackerRuns
  import opened RecvStreams
  import opened SendStreams
  import Packets

  lemma AckSubmitStepKept(v: Variant, x: Endpoint, y: Endpoint, now: nat, err: WriteError)
    requires Before(v, x, y)
    ensures Kept(v, Act(v, x, y, AckSubmit(now, err)), y)
  {
    hide Balanced, TableOk, StreamsOk, FramesOk, AckFramesOk, ReceivedOk, HomeOk, FlowsOk, AckedOk, HandledOk, HeldOk,
      HomeOnly;
    if Enabled(x, y, AckSubmit(now, err)) {
      if x.job.value.path !in x.packer.paths {
        JobKept(v, x, y, None);
      } else {
        AckSubmitKept(v, x, y, x.job.value, now, err);
      }
    }
  }

  lemma SubmitStepKept(v: Variant, x: Endpoint, y: Endpoint, p: PathId, st: nat, now: nat, err: WriteError)
    requires Before(v, x, y)
    ensures Kept(v, Act(v, x, y, Submit(p, st, now, err)), y)
  {
    hide Balanced, TableOk, StreamsOk, FramesOk, AckFramesOk, ReceivedOk, HomeOk, FlowsOk, AckedOk, HandledOk, HeldOk,
      HomeOnly;
    if st in x.send && st in x.tiles {
      SubmitKept(v, x, y, p, st, now, err);
    }
  }

  /** Every step of an endpoint keeps the invariant. */
  lemma StepKept(v: Variant, x: Endpoint, y: Endpoint, step: Step)
    requires Before(v, x, y)
    ensures Kept(v, Act(v, x, y, step), y)
  {
    hide Local, Link, Written, Popped, SubmitFrame, SubmitFromSendStream, Collect, Update, Account, Cleaned, Recording,
      Dispatch, Packers.Cancel, Packers.Register, Describes, Tasks;
    if Enabled(x, y, step) {
      match step
      case Create(st) => CreateKept(v, x, y, st);
      case AppWrite(st, d) => AppWriteKept(v, x, y, st, d);
      case Read(st, room) => ReadKept(v, x, y, st, room);
      case Register(p) => RegisterKept(v, x, y, p);
      case Control(p, f, now, err) => ControlKept(v, x, y, p, f, now, err);
      case Submit(p, st, now, err) => SubmitStepKept(v, x, y, p, st, now, err);
      case RetransmitCollect(now) => CollectKept(v, x, y, now);
      case RetransmitUpdate(id, err, now, clock) => UpdateKept(v, x, y, id, err, now, clock);
      case Cancel(st) => CancelKept(v, x, y, st);
      case AckSnapshot(p, ranges) => AckSnapshotKept(v, x, y, p, ranges);
      case AckSubmit(now, err) => AckSubmitStepKept(v, x, y, now, err);
      case AckCleanup => AckCleanupKept(v, x, y, x.job.value);
      case Receive(id) => ReceiveKept(v, x, y, id);
      case HandleNext(p) => HandleNextKept(v, x, y, p);
    }
  }

  lemma NewEndpointsOk(v: Variant, max: nat)
    ensures Invariant(v, System(NewEndpoint(max), NewEndpoint(max)))
  {
    assert Class(NO_HISTORY, Acked) == {} && Class(NO_HISTORY, Dropped) == {};
  }

  lemma NextKept(v: Variant, s: System, e: Event)
    requires Invariant(v, s)
    ensures Invariant(v, Connection.Next(v, s, e))
  {
    hide Local, Link;
    if e.side.Left? {
      StepKept(v, s.left, s.right, e.step);
    } else {
      StepKept(v, s.right, s.left, e.step);
    }
  }

  /** The invariant holds in every state of every run. */
  lemma {:induction false} RunKept(v: Variant, max: nat, events: seq<Event>, states: seq<System>, i: nat)
    requires IsRun(v, max, events, states) && i < |states|
    ensures Invariant(v, states[i])
  {
    hide Invariant, Connection.Next;
    if i == 0 {
      NewEndpointsOk(v, max);
    } else {
      RunKept(v, max, events, states, i - 1);
      assert states[i] == Connection.Next(v, states[i - 1], events[i - 1]);
      NextKept(v, states[i - 1], events[i - 1]);
    }
  }

  // ----- Prefix safety -----

  /** What the application at `y` has read of a stream and can still read is the beginning of what was
      written to it at `x`. */
  predicate PrefixAt(x: Endpoint, y: Endpoint, st: nat) {
    st in y.recv ==>
      && y.recv[st].expected <= |At(x.written, st)|
      && At(y.delivered, st) + y.recv[st].readBuf == At(x.written, st)[..y.recv[st].expected]
  }

  /** In every state of every run, in both variants and both directions. */
  lemma PrefixSafety(v: Variant, max: nat, events: seq<Event>, states: seq<System>, i: nat, st: nat)
    requires IsRun(v, max, events, states) && i < |states|
    ensures PrefixAt(states[i].left, states[i].right, st) && PrefixAt(states[i].right, states[i].left, st)
  {
    hide IsRun, Local, Link, PrefixAt;
    RunKept(v, max, events, states, i);
    LinkFlow(v, states[i].left, states[i].right, st);
    LinkFlow(v, states[i].right, states[i].left, st);
  }

  lemma LinkFlow(v: Variant, x: Endpoint, y: Endpoint, st: nat)
    requires Link(v, x, y)
    ensures PrefixAt(x, y, st)
  {
    if st in y.recv {
      assert FlowOk(y.recv[st], At(y.delivered, st), At(x.written, st), TilesAt(x.tiles, st));
    }
  }

  // ----- Acknowledgements -----

  /** A number leaves the table as acknowledged only if the peer recorded it; a recorded number was
      sent, and is still to be acknowledged or covered by an ACK frame that was submitted. */
  ghost predicate AcksSound(x: Endpoint, y: Endpoint) {
    && (forall id :: id in x.ledger.fates && x.ledger.fates[id] == Acked ==> id in y.recorded)
    && (forall id :: id in y.recorded ==> id in x.net && (ToAck(y.received, id) || AckSent(y.packets, id)))
  }

  lemma AckSoundness(v: Variant, max: nat, events: seq<Event>, states: seq<System>, i: nat)
    requires IsRun(v, max, events, states) && i < |states|
    ensures AcksSound(states[i].left, states[i].right) && AcksSound(states[i].right, states[i].left)
  {
    hide IsRun, Local, Link, AcksSound;
    RunKept(v, max, events, states, i);
    LinkAcks(v, states[i].left, states[i].right);
    LinkAcks(v, states[i].right, states[i].left);
  }

  lemma LinkAcks(v: Variant, x: Endpoint, y: Endpoint)
    requires Link(v, x, y) && Local(y)
    ensures AcksSound(x, y)
  {
  }

  // ----- Quiescence -----

  /** Nothing of the stream is left to send, and the packets that carry its frames were acknowledged.
      Other packets may be pending, dropped or cancelled. */
  ghost predicate Quiet(x: Endpoint, st: nat) {
    && st in x.send && x.send[st].chunks == []
    && forall o :: (st, o) in x.home ==> x.home[(st, o)] in x.ledger.fates && x.ledger.fates[x.home[(st, o)]] == Acked
  }

  /** The receiver has the stream, and no reader is in the middle of a packet of it. */
  ghost predicate Settled(x: Endpoint, y: Endpoint, st: nat) {
    && st in y.recv
    && forall p, o :: p in y.processing && (st, o) in x.home ==> y.processing[p].0 != x.home[(st, o)]
  }

  /** A frame of the stream was recorded, and its packet reads back with it: as written, a packet reads
      back with its first frame only. */
  predicate Carried(v: Variant, x: Endpoint, st: nat, o: nat) {
    && st in x.tiles && o in x.tiles[st].tiles
    && (st, o) in x.home && x.home[(st, o)] in x.packets
    && var f, fs := Stream(st, o, false, x.tiles[st].tiles[o]), x.packets[x.home[(st, o)]];
       f in fs && (v.AsWritten? ==> fs[0] == f)
  }

  ghost predicate AllCarried(v: Variant, x: Endpoint, st: nat) {
    st in x.tiles && forall o :: o in x.tiles[st].tiles ==> Carried(v, x, st, o)
  }

  /** The frames that read back are those sent, and as written only the first. */
  lemma ReadsBackExactly(v: Variant, fs: seq<Frame>, f: Frame)
    requires f in fs
    ensures f in Packets.Received(v, fs) <==> (v.AsWritten? ==> fs[0] == f)
  {
    if v.AsWritten? {
      assert Packets.Received(v, fs)[0] == fs[0];
    }
  }

  /** The frame was handled at the receiver. */
  lemma FrameArrived(v: Variant, x: Endpoint, y: Endpoint, id: PacketId, f: Frame)
    requires Link(v, x, y) && id in x.ledger.fates && x.ledger.fates[id] == Acked
    requires forall p :: p in y.processing ==> y.processing[p].0 != id
    requires id in x.packets && f in Packets.Received(v, x.packets[id])
    ensures id in y.recorded && Accounted(y.recv, y.lost, f)
  {
    hide FlowsOk, LostOk, LostUnopened, ReadersOk, HeldOk;
    var fs := Packets.Received(v, x.packets[id]);
    var k :| 0 <= k < |fs| && fs[k] == f;
    assert k < Done(y.processing, id, |fs|);
    assert Accounted(y.recv, y.lost, Packets.Received(v, x.packets[id])[k]);
  }

  /** What a packet carries readably stands in the packet noted for it. */
  lemma ReadableIsCarried(v: Variant, x: Endpoint, st: nat, o: nat)
    requires FramesOk(x.packets, x.tiles) && HomeOnly(x.home, x.packets)
    requires st in x.tiles && o in x.tiles[st].tiles && Readable(v, x.packets, st, o)
    ensures Carried(v, x, st, o)
  {
    var id, k :| id in x.packets && 0 <= k < |Packets.Received(v, x.packets[id])|
                 && IsFrame(Packets.Received(v, x.packets[id])[k], st, o);
    var f := Packets.Received(v, x.packets[id])[k];
    assert f in Packets.Received(v, x.packets[id]);
    var i :| 0 <= i < |x.packets[id]| && x.packets[id][i] == f;
    assert FrameOk(x.tiles, x.packets[id][i]) && HasHome(x.home, x.packets[id][i], id);
    ReadsBackExactly(v, x.packets[id], f);
  }

  /** Every frame that was lost at the receiver came again. */
  ghost predicate CameBack(y: Endpoint, st: nat)
    requires st in y.recv
  {
    forall o :: (st, o) in y.lost ==> Held(y.recv[st], o)
  }

  /** The whole stream has been received. */
  ghost predicate Complete(x: Endpoint, y: Endpoint, st: nat)
    requires st in y.recv
  {
    At(y.delivered, st) + y.recv[st].readBuf == At(x.written, st)
  }

  lemma QuietStream(v: Variant, x: Endpoint, y: Endpoint, st: nat)
    requires Local(x) && Link(v, x, y) && Quiet(x, st) && st in y.recv
    ensures st in x.tiles && x.tiles[st].Valid() && At(x.written, st) == x.written[st]
    ensures x.tiles[st].n == |x.written[st]|
    ensures FlowOk(y.recv[st], At(y.delivered, st), x.written[st], x.tiles[st])
    ensures LostOk(y.lost, x.tiles)
  {
    assert StreamOk(x.send[st], x.written[st], x.tiles[st]);
    assert FlowOk(y.recv[st], At(y.delivered, st), At(x.written, st), TilesAt(x.tiles, st));
  }

  /** Carried frames arrived, and those lost came again: everything is held. */
  lemma AllHeld(v: Variant, x: Endpoint, y: Endpoint, st: nat)
    requires Local(x) && Link(v, x, y) && Quiet(x, st) && Settled(x, y, st)
    requires CameBack(y, st) && AllCarried(v, x, st)
    ensures forall o :: o in x.tiles[st].tiles ==> Held(y.recv[st], o)
  {
    forall o | o in x.tiles[st].tiles
      ensures Held(y.recv[st], o)
    {
      var id, f := x.home[(st, o)], Stream(st, o, false, x.tiles[st].tiles[o]);
      assert Carried(v, x, st, o);
      ReadsBackExactly(v, x.packets[id], f);
      FrameArrived(v, x, y, id, f);
    }
  }

  /** Everything is held: it was carried. */
  lemma HeldIsCarried(v: Variant, x: Endpoint, y: Endpoint, st: nat)
    requires Local(x) && Link(v, x, y) && st in y.recv && st in x.tiles
    requires forall o :: o in x.tiles[st].tiles ==> Held(y.recv[st], o)
    ensures AllCarried(v, x, st)
  {
    forall o | o in x.tiles[st].tiles
      ensures Carried(v, x, st, o)
    {
      ReadableIsCarried(v, x, st, o);
    }
  }

  lemma QuietExactly(v: Variant, x: Endpoint, y: Endpoint, st: nat)
    requires Local(x) && Link(v, x, y) && Quiet(x, st) && Settled(x, y, st)
    ensures Complete(x, y, st) <==> CameBack(y, st) && AllCarried(v, x, st)
  {
    hide Local, Link, AllCarried;
    QuietStream(v, x, y, st);
    var t := x.tiles[st];
    if CameBack(y, st) && AllCarried(v, x, st) {
      AllHeld(v, x, y, st);
      CompleteWhenAllHeld(t, y.recv[st]);
    }
    if Complete(x, y, st) {
      assert y.recv[st].expected == t.n;
      assert forall o :: o in t.tiles ==> o < t.End(o) <= t.n;
      HeldIsCarried(v, x, y, st);
    }
  }

  /** Quiescence of one stream: its buffer is empty, the packets that carry its frames were acknowledged,
      and the receiver has handled what it received of them. Then, whatever was lost, repeated or
      reordered on the way and whatever became of other packets, the whole stream has arrived exactly
      when every frame of it was recorded in a packet that reads back with it, and every frame that the
      receiver had to drop came again. */
  lemma QuiescenceExactly(v: Variant, max: nat, events: seq<Event>, states: seq<System>, i: nat, st: nat)
    requires IsRun(v, max, events, states) && i < |states|
    requires Quiet(states[i].left, st) && Settled(states[i].left, states[i].right, st)
    ensures Complete(states[i].left, states[i].right, st)
       <==> CameBack(states[i].right, st) && AllCarried(v, states[i].left, st)
  {
    hide IsRun, Local, Link, Quiet, Settled, AllCarried, Complete, CameBack;
    RunKept(v, max, events, states, i);
    QuietExactly(v, states[i].left, states[i].right, st);
  }

  /** Every frame taken from the stream was recorded in a packet. */
  ghost predicate AllRecordedOf(x: Endpoint, st: nat) {
    st in x.tiles &&
    forall o :: o in x.tiles[st].tiles ==>
                  && (st, o) in x.home && x.home[(st, o)] in x.packets
                  && Stream(st, o, false, x.tiles[st].tiles[o]) in x.packets[x.home[(st, o)]]
  }

  /** It is so when no submission of the endpoint ever took more than it recorded. */
  lemma LosslessRecords(v: Variant, max: nat, events: seq<Event>, states: seq<System>, i: nat, st: nat)
    requires IsRun(v, max, events, states) && i < |states|
    requires states[i].left.lossless && st in states[i].left.send
    ensures AllRecordedOf(states[i].left, st)
  {
    hide IsRun, Link;
    RunKept(v, max, events, states, i);
    assert HomeOk(true, states[i].left.tiles, states[i].left.home, states[i].left.packets);
  }

  /** Each frame of the stream came first in the packet noted for it. */
  ghost predicate AllFirst(x: Endpoint, st: nat) {
    st in x.tiles &&
    forall o :: o in x.tiles[st].tiles && (st, o) in x.home && x.home[(st, o)] in x.packets ==>
                  var fs := x.packets[x.home[(st, o)]];
                  fs != [] && fs[0] == Stream(st, o, false, x.tiles[st].tiles[o])
  }

  lemma CarriedExactly(v: Variant, x: Endpoint, st: nat)
    ensures AllCarried(v, x, st) <==> AllRecordedOf(x, st) && (v.AsWritten? ==> AllFirst(x, st))
  {
    if AllCarried(v, x, st) {
      assert forall o :: o in x.tiles[st].tiles ==> Carried(v, x, st, o);
    }
    if AllRecordedOf(x, st) && (v.AsWritten? ==> AllFirst(x, st)) {
      assert forall o :: o in x.tiles[st].tiles ==> Carried(v, x, st, o);
    }
  }

  /** As written: complete exactly when each frame of the stream was recorded and came first in its
      packet, and every frame that was dropped came again. */
  lemma AsWrittenQuiescence(max: nat, events: seq<Event>, states: seq<System>, i: nat, st: nat)
    requires IsRun(AsWritten, max, events, states) && i < |states|
    requires Quiet(states[i].left, st) && Settled(states[i].left, states[i].right, st)
    ensures Complete(states[i].left, states[i].right, st)
       <==> AllRecordedOf(states[i].left, st) && AllFirst(states[i].left, st) && CameBack(states[i].right, st)
  {
    hide IsRun, Settled, AllCarried, AllFirst, AllRecordedOf, Complete, CameBack;
    QuiescenceExactly(AsWritten, max, events, states, i, st);
    CarriedExactly(AsWritten, states[i].left, st);
  }

  lemma LinkLost(v: Variant, x: Endpoint, y: Endpoint, st: nat)
    requires Link(v, x, y) && v.Repaired? && st !in y.missed
    ensures forall o :: (st, o) !in y.lost
  {
    forall o
      ensures (st, o) !in y.lost
    {
      assert (st, o).0 == st;
    }
  }

  /** Repaired: a stream that existed at the receiver whenever a frame of it was handled is complete
      exactly when everything taken from its buffer was recorded. */
  lemma RepairedQuiescence(max: nat, events: seq<Event>, states: seq<System>, i: nat, st: nat)
    requires IsRun(Repaired, max, events, states) && i < |states|
    requires Quiet(states[i].left, st) && Settled(states[i].left, states[i].right, st)
    requires st !in states[i].right.missed
    ensures Complete(states[i].left, states[i].right, st) <==> AllRecordedOf(states[i].left, st)
  {
    hide IsRun, Local, Link, AllCarried, AllFirst, AllRecordedOf, Complete;
    RunKept(Repaired, max, events, states, i);
    QuiescenceExactly(Repaired, max, events, states, i, st);
    CarriedExactly(Repaired, states[i].left, st);
    LinkLost(Repaired, states[i].left, states[i].right, st);
  }
}
