/** What the steps of an endpoint bring about: which packets reach the network, that a lost packet comes
    through, that an ACK retires what it covers, and what reading and closing a stream change. */
module ConnectionLaws {
  import opened AckRanges
  import opened Assembly
  import opened Bytes
  import opened Common
  import opened Connection
  import opened ConnectionInvariant
  import opened ConnectionRuns
  import opened Frames
  import opened PackerEffects
  import opened PackerRuns
  import opened Packers
  import opened RecvStreams
  import opened SendStreams
  import Packets

  // ----- What is on the network -----

  /** The step records this packet and writes it without error, or writes it once more without error. */
  ghost predicate Sends(x: Endpoint, x': Endpoint, step: Step, id: PacketId) {
    match step
    case Control(_, _, _, err) => err.NoError? && id !in x.packets && id in x'.packets
    case Submit(_, _, _, err) => err.NoError? && id !in x.packets && id in x'.packets
    case AckSubmit(_, err) => err.NoError? && id !in x.packets && id in x'.packets
    case RetransmitUpdate(task, err, _, _) => task == id && err.NoError? && id in x.tasks
    case _ => false
  }

  predicate Submits(step: Step) {
    step.Control? || step.Submit? || step.AckSubmit?
  }

  /** A recorded packet is a new one, and is on the network exactly when its write did not fail. */
  lemma OutgoingNet(x: Endpoint, s': State, r: SubmitResult, err: WriteError, id: PacketId)
    requires r.Submitted? ==> r.id in s'.pending && r.id !in x.packets && r.err == err
    ensures var x' := Outgoing(x, s', r);
            id in x'.net <==> id in x.net || (err.NoError? && id !in x.packets && id in x'.packets)
  {
  }

  lemma NewNumber(x: Endpoint, op: Op)
    requires TableOk(x.packer, x.packets, x.net, x.tasks, x.ledger.fates) && (op.SubmitFrameOp? || op.SubmitStreamOp?)
    ensures var r := ResultOf(x.packer, op);
            r.Submitted? ==> r.id in Apply(x.packer, op).pending && r.id !in x.packets && r.err == op.err
  {
    SubmissionExactly(x.packer, op);
    var r := ResultOf(x.packer, op);
    if r.Submitted? {
      assert !Assigned(x.packer, r.id);
    }
  }

  lemma SubmitOneNet(x: Endpoint, p: PathId, f: Frame, now: nat, err: WriteError, id: PacketId)
    requires TableOk(x.packer, x.packets, x.net, x.tasks, x.ledger.fates)
    ensures var x' := SubmitOne(x, p, f, now, err);
            id in x'.net <==> id in x.net || (err.NoError? && id !in x.packets && id in x'.packets)
  {
    var op := SubmitFrameOp(p, f, 0, now, err);
    NewNumber(x, op);
    hide SubmitFrame, TableOk, Outgoing;
    OutgoingNet(x, SubmitFrame(x.packer, p, f, 0, now, err).0, SubmitFrame(x.packer, p, f, 0, now, err).1, err, id);
  }

  lemma SubmitStreamNet(x: Endpoint, p: PathId, st: nat, now: nat, err: WriteError, id: PacketId)
    requires TableOk(x.packer, x.packets, x.net, x.tasks, x.ledger.fates) && st in x.send && st in x.tiles
    ensures var x' := SubmitStream(x, p, st, now, err);
            id in x'.net <==> id in x.net || (err.NoError? && id !in x.packets && id in x'.packets)
  {
    var op := SubmitStreamOp(p, st, x.send[st], now, err);
    NewNumber(x, op);
    hide SubmitFromSendStream, TableOk, Outgoing, Popped, Extend, WithHomes;
    var (s', _, r) := SubmitFromSendStream(x.packer, p, st, x.send[st], now, err);
    OutgoingNet(x, s', r, err, id);
    OutgoingOnly(x, p, st, now, err);
  }

  lemma OutgoingOnly(x: Endpoint, p: PathId, st: nat, now: nat, err: WriteError)
    requires st in x.send && st in x.tiles
    ensures var (s', _, r) := SubmitFromSendStream(x.packer, p, st, x.send[st], now, err);
            var x' := SubmitStream(x, p, st, now, err);
            x'.net == Outgoing(x, s', r).net && x'.packets == Outgoing(x, s', r).packets
  {
    hide SubmitFromSendStream, Popped, Extend, WithHomes, AccountSubmit;
  }

  lemma TableOf(x: Endpoint)
    requires Local(x)
    ensures TableOk(x.packer, x.packets, x.net, x.tasks, x.ledger.fates)
  {
  }

  lemma ControlNet(v: Variant, x: Endpoint, y: Endpoint, step: Step, id: PacketId)
    requires Local(x) && step.Control? && Enabled(x, y, step)
    ensures id in Act(v, x, y, step).net <==> id in x.net || Sends(x, Act(v, x, y, step), step, id)
  {
    hide SubmitOne, Local, TableOk;
    TableOf(x);
    SubmitOneNet(x, step.path, step.frame, step.now, step.err, id);
  }

  lemma StreamNet(v: Variant, x: Endpoint, y: Endpoint, step: Step, id: PacketId)
    requires Local(x) && step.Submit? && Enabled(x, y, step)
    ensures id in Act(v, x, y, step).net <==> id in x.net || Sends(x, Act(v, x, y, step), step, id)
  {
    hide SubmitStream, Local, TableOk;
    TableOf(x);
    if step.stream in x.tiles {
      SubmitStreamNet(x, step.path, step.stream, step.now, step.err, id);
    }
  }

  lemma JobAside(x: Endpoint, job: AckJob, now: nat, err: WriteError)
    requires job.ranges != []
    ensures var x1, x2 := AckSubmitted(x, job, now, err), SubmitOne(x, job.path, AckFrame(job), now, err);
            x1.net == x2.net && x1.packets == x2.packets
  {
    hide SubmitOne, SubmitFrame;
  }

  lemma AckActs(v: Variant, x: Endpoint, y: Endpoint, step: Step)
    requires step.AckSubmit? && Enabled(x, y, step)
    ensures Act(v, x, y, step) == if x.job.value.path !in x.packer.paths then x.(job := None)
                                  else AckSubmitted(x, x.job.value, step.now, step.err)
  {
    hide AckSubmitted;
  }

  lemma AckNet(v: Variant, x: Endpoint, y: Endpoint, step: Step, id: PacketId)
    requires Local(x) && step.AckSubmit? && Enabled(x, y, step)
    ensures id in Act(v, x, y, step).net <==> id in x.net || Sends(x, Act(v, x, y, step), step, id)
  {
    hide SubmitOne, AckSubmitted, Local, TableOk, Act;
    TableOf(x);
    AckActs(v, x, y, step);
    SubmitOneNet(x, x.job.value.path, AckFrame(x.job.value), step.now, step.err, id);
    JobAside(x, x.job.value, step.now, step.err);
  }

  lemma SubmissionNet(v: Variant, x: Endpoint, y: Endpoint, step: Step, id: PacketId)
    requires Local(x) && Submits(step) && Enabled(x, y, step)
    ensures id in Act(v, x, y, step).net <==> id in x.net || Sends(x, Act(v, x, y, step), step, id)
  {
    hide Act, Local, Enabled, Sends;
    if step.Control? {
      ControlNet(v, x, y, step, id);
    } else if step.Submit? {
      StreamNet(v, x, y, step, id);
    } else {
      AckNet(v, x, y, step, id);
    }
  }

  /** Nothing was put on the network. */
  predicate SameNet(x: Endpoint, x': Endpoint) {
    x'.net == x.net
  }

  lemma ReceiverAside(x: Endpoint, recv: map<nat, Recv>, missed: set<nat>, lost: set<(nat, nat)>)
    ensures SameNet(x, x.(recv := recv, missed := missed, lost := lost))
  {
  }

  lemma StreamFrameNet(v: Variant, x: Endpoint, p: PathId, f: Frame)
    requires f.Stream?
    ensures SameNet(x, Dispatch(v, x, p, f))
  {
    hide SameNet, RecvAfter, LostAfter, Account, OnAck;
    if f.streamId in x.recv {
      ReceiverAside(x, RecvAfter(v, x.recv, f), x.missed, LostAfter(v, x, f));
    } else {
      ReceiverAside(x, x.recv, x.missed + {f.streamId}, x.lost + {(f.streamId, f.offset)});
    }
  }

  lemma OtherFrameNet(v: Variant, x: Endpoint, p: PathId, f: Frame)
    requires !f.Stream?
    ensures SameNet(x, Dispatch(v, x, p, f))
  {
    hide RecvAfter, LostAfter, Account, OnAck;
  }

  lemma DispatchNet(v: Variant, x: Endpoint, p: PathId, f: Frame)
    ensures SameNet(x, Dispatch(v, x, p, f))
  {
    hide Dispatch;
    if f.Stream? {
      StreamFrameNet(v, x, p, f);
    } else {
      OtherFrameNet(v, x, p, f);
    }
  }

  lemma HandledNet(v: Variant, x: Endpoint, p: PathId, frames: seq<Frame>)
    requires p in x.processing
    ensures SameNet(x, FrameHandled(v, x, p, frames))
  {
    hide Dispatch;
    if x.processing[p].1 < |frames| {
      DispatchNet(v, x, p, frames[x.processing[p].1]);
    }
  }

  lemma OtherNet(v: Variant, x: Endpoint, y: Endpoint, step: Step)
    requires !Submits(step) && !step.RetransmitUpdate? && Enabled(x, y, step)
    ensures SameNet(x, Act(v, x, y, step))
  {
    hide FrameHandled, Account, Collect, Tasks, Packers.Cancel, Packets.Received, Recording, Cleaned, Describes,
      Packers.Register;
    match step
    case HandleNext(p) => HandledNet(v, x, p, Packets.Received(v, y.packets[x.processing[p].0]));
    case _ =>
  }

  lemma UpdatedNet(x: Endpoint, id: PacketId, err: WriteError, now: nat, clock: nat, other: PacketId)
    ensures other in Updated(x, id, err, now, clock).net <==> other in x.net || (other == id && err.NoError?)
  {
    hide Update, Account;
  }

  lemma NothingSent(v: Variant, x: Endpoint, y: Endpoint, step: Step, id: PacketId)
    requires !Enabled(x, y, step)
    ensures Act(v, x, y, step) == x && !Sends(x, x, step, id)
  {
  }

  lemma RetransmissionNet(v: Variant, x: Endpoint, y: Endpoint, step: Step, id: PacketId)
    requires step.RetransmitUpdate? && Enabled(x, y, step)
    ensures id in Act(v, x, y, step).net <==> id in x.net || Sends(x, Act(v, x, y, step), step, id)
  {
    hide Updated;
    UpdatedNet(x, step.id, step.err, step.now, step.clock, id);
  }

  lemma NetStep(v: Variant, x: Endpoint, y: Endpoint, step: Step, id: PacketId)
    requires Local(x)
    ensures id in Act(v, x, y, step).net <==> id in x.net || Sends(x, Act(v, x, y, step), step, id)
  {
    hide Local, Enabled, Act;
    if !Enabled(x, y, step) {
      NothingSent(v, x, y, step, id);
    } else if Submits(step) {
      SubmissionNet(v, x, y, step, id);
    } else if step.RetransmitUpdate? {
      RetransmissionNet(v, x, y, step, id);
    } else {
      OtherNet(v, x, y, step);
    }
  }

  ghost predicate SentAt(events: seq<Event>, states: seq<System>, k: nat, side: Side, id: PacketId)
    requires |states| == |events| + 1
  {
    && k < |events| && events[k].side == side
    && if side.Left? then Sends(states[k].left, states[k + 1].left, events[k].step, id)
       else Sends(states[k].right, states[k + 1].right, events[k].step, id)
  }

  function Of(s: System, side: Side): Endpoint {
    if side.Left? then s.left else s.right
  }

  /** In every run and for both sides: a packet is on the network exactly when some event before put it
      there, its own submission or a retransmission of it, written without error. */
  lemma {:induction false} NetExactly(v: Variant, max: nat, events: seq<Event>, states: seq<System>, i: nat,
                                      side: Side, id: PacketId)
    requires IsRun(v, max, events, states) && i < |states|
    ensures id in Of(states[i], side).net <==> exists k: nat :: k < i && SentAt(events, states, k, side, id)
  {
    hide Act, Sends, Invariant;
    if i == 0 {
      assert Of(states[0], side) == NewEndpoint(max);
    } else {
      NetExactly(v, max, events, states, i - 1, side, id);
      RunKept(v, max, events, states, i - 1);
      assert states[i] == Connection.Next(v, states[i - 1], events[i - 1]);
      NextNet(v, states[i - 1], events[i - 1], side, id);
      assert SentAt(events, states, i - 1, side, id) <==>
             events[i - 1].side == side
             && Sends(Of(states[i - 1], side), Of(states[i], side), events[i - 1].step, id);
    }
  }

  lemma NextNet(v: Variant, s: System, e: Event, side: Side, id: PacketId)
    requires Invariant(v, s)
    ensures var s' := Connection.Next(v, s, e);
            id in Of(s', side).net
            <==> id in Of(s, side).net || (e.side == side && Sends(Of(s, side), Of(s', side), e.step, id))
  {
    hide Act, Sends, Local, Link;
    if e.side == side {
      NetStep(v, Of(s, side), if side.Left? then s.right else s.left, e.step, id);
    }
  }

  // ----- A lost packet comes through -----

  lemma DueIsCollected(v: Variant, x: Endpoint, y: Endpoint, id: PacketId, now: nat)
    requires id in x.packer.pending && x.tasks == {}
    requires x.packer.pending[id].nextRetry <= now && x.packer.pending[id].attempts < 12
    ensures var x' := Act(v, x, y, RetransmitCollect(now)); id in x'.tasks && x'.packets == x.packets
  {
    hide Account, Collect, Tasks;
    CollectExactly(x.packer, now, id);
  }

  lemma TaskIsWritten(v: Variant, x: Endpoint, y: Endpoint, id: PacketId, at: nat, clock: nat)
    requires id in x.tasks
    ensures var x' := Act(v, x, y, RetransmitUpdate(id, NoError, at, clock));
            id in x'.net && id !in x'.tasks && x'.packets == x.packets
  {
    hide Account, Update;
  }

  lemma SentIsReceived(v: Variant, x: Endpoint, y: Endpoint, id: PacketId)
    requires id in y.net && id in y.packets && |y.packets[id]| <= Packets.MAX_FRAMES && id.path !in x.processing
    ensures var x' := Act(v, x, y, Receive(id));
            && id in x'.recorded && ToAck(x'.received, id)
            && id.path in x'.processing && x'.processing[id.path] == (id, 0)
  {
  }

  lemma PendingIsRecorded(x: Endpoint, id: PacketId)
    requires Local(x) && id in x.packer.pending
    ensures id in x.packets
  {
  }

  /** In every state of every run: a pending packet that is due and has attempts left is written by the
      next pass of the retransmit loop if the write succeeds, whatever became of its earlier copies; the
      peer can then receive it as soon as the reader of its path is free, and has recorded it after
      that. */
  lemma LossIsRepaired(v: Variant, max: nat, events: seq<Event>, states: seq<System>, i: nat, id: PacketId, now: nat,
                       at: nat, clock: nat)
    requires IsRun(v, max, events, states) && i < |states|
    requires var x := states[i].left;
             && id in x.packer.pending && x.tasks == {}
             && x.packer.pending[id].nextRetry <= now && x.packer.pending[id].attempts < 12
             && (id in x.packets ==> |x.packets[id]| <= Packets.MAX_FRAMES)
    requires id.path !in states[i].right.processing
    ensures var s1 := Connection.Next(v, states[i], Event(Left, RetransmitCollect(now)));
            var s2 := Connection.Next(v, s1, Event(Left, RetransmitUpdate(id, NoError, at, clock)));
            var s3 := Connection.Next(v, s2, Event(Right, Receive(id)));
            && id in s2.left.net && Enabled(s2.right, s2.left, Receive(id))
            && id in s3.right.recorded && ToAck(s3.right.received, id)
  {
    hide Act, Local, Link;
    RunKept(v, max, events, states, i);
    var s := states[i];
    PendingIsRecorded(s.left, id);
    DueIsCollected(v, s.left, s.right, id, now);
    var x1 := Act(v, s.left, s.right, RetransmitCollect(now));
    TaskIsWritten(v, x1, s.right, id, at, clock);
    var x2 := Act(v, x1, s.right, RetransmitUpdate(id, NoError, at, clock));
    SentIsReceived(v, s.right, x2, id);
  }

  // ----- An ACK retires what it covers -----

  /** The LargestAcked field is the largest number recorded. */
  lemma {:induction false} LargestIsMaximum(ranges: seq<AckRange>)
    requires ranges != []
    ensures forall i :: 0 <= i < |ranges| ==> ranges[i].largest <= Largest(ranges)
    ensures exists i :: 0 <= i < |ranges| && ranges[i].largest == Largest(ranges)
  {
    if |ranges| == 1 {
      assert ranges[0].largest == Largest(ranges);
    } else {
      LargestIsMaximum(ranges[1..]);
      var k :| 0 <= k < |ranges[1..]| && ranges[1..][k].largest == Largest(ranges[1..]);
      assert ranges[k + 1].largest == Largest(ranges[1..]);
      assert ranges[0].largest == Largest(ranges) || ranges[k + 1].largest == Largest(ranges);
      forall i | 0 <= i < |ranges|
        ensures ranges[i].largest <= Largest(ranges)
      {
        if i > 0 {
          assert ranges[1..][i - 1] == ranges[i];
        }
      }
    }
  }

  lemma LargestAcked(ranges: seq<AckRange>, numbers: set<nat>)
    requires Describes(ranges, numbers) && ranges != []
    ensures Largest(ranges) in numbers && forall n :: n in numbers ==> n <= Largest(ranges)
  {
    LargestIsMaximum(ranges);
    var i :| 0 <= i < |ranges| && ranges[i].largest == Largest(ranges);
    assert Covers(ranges, ranges[i].largest);
    forall n | n in numbers
      ensures n <= Largest(ranges)
    {
      assert Covers(ranges, n);
      var j :| 0 <= j < |ranges| && ranges[j].smallest <= n <= ranges[j].largest;
      assert ranges[j].largest <= Largest(ranges);
    }
  }

  /** The receiver's ACK of a path: what it records, and the frame it puts into the packet. */
  lemma AckIsRecorded(v: Variant, y: Endpoint, x: Endpoint, p: PathId, ranges: seq<AckRange>, now: nat)
    requires Local(y) && y.job.None? && p in y.received && ranges != [] && Describes(ranges, y.received[p])
    requires p in y.packer.paths && 42 + 16 * |ranges| <= y.packer.maxPacketSize
    ensures var y1 := Act(v, y, x, AckSnapshot(p, ranges));
            var y2 := Act(v, y1, x, AckSubmit(now, NoError));
            var id := PacketId(p, y.packer.Last(p) + 1);
            && id in y2.net && id in y2.packets && y2.packets[id] == [Ack(Largest(ranges), 0, ranges)]
            && y2.job == Some(AckJob(p, ranges, true)) && y2.received == y.received
            && y2.recorded == y.recorded && y2.processing == y.processing
  {
    hide Describes, Balanced, StreamsOk, FramesOk, AckFramesOk, ReceivedOk, JobOk, HomeOk, HomeOnly, SubmitFrame,
      AccountSubmit;
    var f := Ack(Largest(ranges), 0, ranges);
    assert y.packer.Queue(p) == [];
    AckFits(y.packer, p, f, now);
  }

  lemma AckFits(s: State, p: PathId, f: Frame, now: nat)
    requires f.Ack? && s.Queue(p) == [] && p in s.paths && 42 + 16 * |f.ranges| <= s.maxPacketSize
    ensures var (s', r) := SubmitFrame(s, p, f, 0, now, NoError);
            r == Submitted(PacketId(p, s.Last(p) + 1), NoError)
            && r.id in s'.pending && s'.pending[r.id].frames == [f]
  {
    assert [] + [f] == [f] && [f][1..] == [];
    assert Packets.TotalSize([f]) == f.Size() + Packets.TotalSize([]);
  }

  /** A packet of one ACK frame, received and handled, takes what it covers out of the table. */
  lemma AckIsHandled(v: Variant, x: Endpoint, y: Endpoint, id: PacketId, f: Frame)
    requires id in y.net && id in y.packets && y.packets[id] == [f] && f.Ack? && id.path !in x.processing
    ensures var x1 := Act(v, x, y, Receive(id));
            var x2 := Act(v, x1, y, HandleNext(id.path));
            && x2.packer == OnAck(x.packer, id.path, f.ranges)
            && x2.ledger == Account(x.ledger, x.packer, AckOp(id.path, f.ranges))
  {
    hide OnAck, Account, Recording;
    OneFrameReceived(v, f);
  }

  lemma OneFrameReceived(v: Variant, f: Frame)
    ensures Packets.Received(v, [f]) == [f]
  {
    assert Packets.Copies(f, 1) == [f];
  }

  lemma CoveredIsAcked(x: Endpoint, p: PathId, ranges: seq<AckRange>, n: nat)
    requires Covers(ranges, n)
    ensures PacketId(p, n) !in OnAck(x.packer, p, ranges).pending
    ensures PacketId(p, n) in x.packer.pending ==>
              var l := Account(x.ledger, x.packer, AckOp(p, ranges));
              PacketId(p, n) in l.fates && l.fates[PacketId(p, n)] == Acked
  {
    AckExactly(x.packer, p, ranges, PacketId(p, n));
  }

  /** The clean-up takes what the ranges describe off the list of its path, and nothing else: numbers
      recorded since the snapshot stay. */
  lemma CleanUpExactly(v: Variant, y: Endpoint, x: Endpoint, taken: set<nat>, q: PathId)
    requires y.job.Some? && y.job.value.submitted && Describes(y.job.value.ranges, taken)
    ensures var y' := Act(v, y, x, AckCleanup);
            && y'.job.None? && y'.recorded == y.recorded
            && RecordedOn(y'.received, q) ==
               if q == y.job.value.path then RecordedOn(y.received, q) - taken else RecordedOn(y.received, q)
  {
    hide Cleaned, Describes;
    CleanedExactly(y.received, y.job.value.path, y.job.value.ranges, taken, q);
  }

  /** In every state of every run: when the peer takes a snapshot of what it recorded on a path and its
      ACK is written without error, receiving and handling that ACK retires every packet of the
      snapshot, as acknowledged, and the clean-up then leaves nothing of it to acknowledge. */
  lemma AckRetires(v: Variant, max: nat, events: seq<Event>, states: seq<System>, i: nat, p: PathId,
                   ranges: seq<AckRange>, now: nat, n: nat)
    requires IsRun(v, max, events, states) && i < |states|
    requires var x, y := states[i].left, states[i].right;
             && y.job.None? && p in y.received && n in y.received[p]
             && ranges != [] && Describes(ranges, y.received[p])
             && p in y.packer.paths && 42 + 16 * |ranges| <= y.packer.maxPacketSize && p !in x.processing
    ensures var s1 := Connection.Next(v, states[i], Event(Right, AckSnapshot(p, ranges)));
            var s2 := Connection.Next(v, s1, Event(Right, AckSubmit(now, NoError)));
            var s3 := Connection.Next(v, s2, Event(Left, Receive(PacketId(p, states[i].right.packer.Last(p) + 1))));
            var s4 := Connection.Next(v, s3, Event(Left, HandleNext(p)));
            var s5 := Connection.Next(v, s4, Event(Right, AckCleanup));
            && PacketId(p, n) !in s4.left.packer.pending
            && (PacketId(p, n) in states[i].left.packer.pending ==>
                  PacketId(p, n) in s4.left.ledger.fates && s4.left.ledger.fates[PacketId(p, n)] == Acked)
            && RecordedOn(s5.right.received, p) == {}
  {
    hide Act, Local, Link, Account, OnAck, Describes;
    RunKept(v, max, events, states, i);
    var x, y, id := states[i].left, states[i].right, PacketId(p, states[i].right.packer.Last(p) + 1);
    AckIsRecorded(v, y, x, p, ranges, now);
    var y2 := Act(v, Act(v, y, x, AckSnapshot(p, ranges)), x, AckSubmit(now, NoError));
    AckIsHandled(v, x, y2, id, Ack(Largest(ranges), 0, ranges));
    DescribedIsCovered(ranges, y.received[p], n);
    CoveredIsAcked(x, p, ranges, n);
    CleanUpExactly(v, y2, Act(v, Act(v, x, y2, Receive(id)), y2, HandleNext(p)), y.received[p], p);
  }

  lemma DescribedIsCovered(ranges: seq<AckRange>, numbers: set<nat>, n: nat)
    requires Describes(ranges, numbers) && n in numbers
    ensures Covers(ranges, n)
  {
  }

  // ----- A submission is sent -----

  lemma OneFrameFits(s: State, p: PathId, f: Frame, now: nat)
    requires !f.Stream? && s.Queue(p) == [] && p in s.paths && 17 + f.Size() <= s.maxPacketSize
    ensures var (s', r) := SubmitFrame(s, p, f, 0, now, NoError);
            r == Submitted(PacketId(p, s.Last(p) + 1), NoError)
            && r.id in s'.pending && s'.pending[r.id].frames == [f]
  {
    assert [] + [f] == [f] && [f][1..] == [];
    assert Packets.TotalSize([f]) == f.Size() + Packets.TotalSize([]);
  }

  /** In every run: a control frame that fits goes out at once in a packet of its own. */
  lemma ControlIsSent(v: Variant, max: nat, events: seq<Event>, states: seq<System>, i: nat, p: PathId, f: Frame,
                      now: nat)
    requires IsRun(v, max, events, states) && i < |states| && !f.Stream? && !f.Ack?
    requires p in states[i].left.packer.paths && 17 + f.Size() <= states[i].left.packer.maxPacketSize
    ensures var x, x' := states[i].left, Connection.Next(v, states[i], Event(Left, Control(p, f, now, NoError))).left;
            var id := PacketId(p, x.packer.Last(p) + 1);
            id !in x.packets && id in x'.net && id in x'.packets && x'.packets[id] == [f]
  {
    hide Link, Local;
    RunKept(v, max, events, states, i);
    var x := states[i].left;
    TableOf(x);
    assert x.packer.Queue(p) == [];
    OneFrameFits(x.packer, p, f, now);
    NewNumber(x, SubmitFrameOp(p, f, 0, now, NoError));
    ControlActs(v, x, states[i].right, p, f, now);
    hide Act, SubmitFrame;
  }

  lemma ControlActs(v: Variant, x: Endpoint, y: Endpoint, p: PathId, f: Frame, now: nat)
    requires !f.Stream? && !f.Ack?
    ensures Act(v, x, y, Control(p, f, now, NoError)) == SubmitOne(x, p, f, now, NoError)
  {
    hide SubmitOne;
  }

  /** The next packet of the path is a new one, on the network, and holds all that was buffered. */
  ghost predicate SentWhole(x: Endpoint, x': Endpoint, p: PathId, st: nat)
    requires st in x.send
  {
    var id := PacketId(p, x.packer.Last(p) + 1);
    && id !in x.packets && id in x'.net && id in x'.packets
    && StreamFrames(x'.packets[id]) && Payload(x'.packets[id]) == x.send[st].Buffered()
    && st in x'.send && x'.send[st].chunks == []
  }

  /** In every run: what is buffered on a stream, if it fits, goes out whole in one packet on the
      submission, and the buffer is empty. */
  lemma StreamIsSent(v: Variant, max: nat, events: seq<Event>, states: seq<System>, i: nat, p: PathId, st: nat,
                     now: nat)
    requires IsRun(v, max, events, states) && i < |states|
    requires var x := states[i].left;
             && st in x.send && x.send[st].chunks != [] && p in x.packer.paths
             && 17 + 26 * |x.send[st].chunks| + |x.send[st].Buffered()| <= x.packer.maxPacketSize
    ensures var e := Event(Left, Submit(p, st, now, NoError));
            SentWhole(states[i].left, Connection.Next(v, states[i], e).left, p, st)
  {
    hide Link, Local, Act;
    RunKept(v, max, events, states, i);
    var x := states[i].left;
    SendOf(x, st);
    TableOf(x);
    WholeBufferSubmitted(x.packer, p, st, x.send[st], now, NoError);
    NewNumber(x, SubmitStreamOp(p, st, x.send[st], now, NoError));
    SubmissionExactly(x.packer, SubmitStreamOp(p, st, x.send[st], now, NoError));
    hide SubmitFromSendStream;
    StreamActs(v, x, states[i].right, p, st, now);
  }

  lemma SendOf(x: Endpoint, st: nat)
    requires Local(x) && st in x.send
    ensures st in x.tiles && x.send[st].Consistent()
  {
    assert StreamOk(x.send[st], x.written[st], x.tiles[st]);
  }

  lemma StreamActs(v: Variant, x: Endpoint, y: Endpoint, p: PathId, st: nat, now: nat)
    requires st in x.send && st in x.tiles
    ensures var x' := Act(v, x, y, Submit(p, st, now, NoError));
            var (s', send', r) := SubmitFromSendStream(x.packer, p, st, x.send[st], now, NoError);
            && st in x'.send && x'.send[st] == send'
            && x'.packets == WithPacket(x.packets, s', r) && x'.net == WithWrite(x.net, r)
  {
    hide SubmitFromSendStream, Popped, Extend, WithHomes, AccountSubmit;
  }

  // ----- Closing and reading a stream -----

  predicate HasFrameOf(fs: seq<Frame>, st: nat) {
    exists k :: 0 <= k < |fs| && fs[k].Stream? && fs[k].streamId == st
  }

  /** In every run: closing a stream other than 0 leaves no pending packet with a frame of it, and neither
      the table entry nor the fate of any packet without one changes. */
  lemma CancelledExactly(v: Variant, max: nat, events: seq<Event>, states: seq<System>, i: nat, st: nat, id: PacketId)
    requires IsRun(v, max, events, states) && i < |states| && st != 0
    requires id in states[i].left.packets
    ensures var x, x' := states[i].left, Connection.Next(v, states[i], Event(Left, Connection.Cancel(st))).left;
            && x'.packets == x.packets && x'.net == x.net
            && if HasFrameOf(x.packets[id], st) then
                 && id !in x'.packer.pending
                 && (id in x.packer.pending ==> id in x'.ledger.fates && x'.ledger.fates[id] == Cancelled)
               else
                 && (id in x'.packer.pending <==> id in x.packer.pending)
                 && (id in x.packer.pending ==> x'.packer.pending[id] == x.packer.pending[id])
                 && (id in x'.ledger.fates <==> id in x.ledger.fates)
                 && (id in x.ledger.fates ==> x'.ledger.fates[id] == x.ledger.fates[id])
  {
    hide Local, Link;
    RunKept(v, max, events, states, i);
    var x, y := states[i].left, states[i].right;
    CancelActs(v, x, y, st);
    TableOf(x);
    CancelledPacket(x, st, id);
    hide Act;
  }

  lemma CancelActs(v: Variant, x: Endpoint, y: Endpoint, st: nat)
    ensures Act(v, x, y, Connection.Cancel(st)) ==
            x.(packer := Packers.Cancel(x.packer, st), ledger := Account(x.ledger, x.packer, CancelOp(st)))
  {
    hide Packers.Cancel, Account;
  }

  lemma CancelledPacket(x: Endpoint, st: nat, id: PacketId)
    requires TableOk(x.packer, x.packets, x.net, x.tasks, x.ledger.fates) && id in x.packets && st != 0
    ensures var s', l' := Packers.Cancel(x.packer, st), Account(x.ledger, x.packer, CancelOp(st));
            if HasFrameOf(x.packets[id], st) then
              && id !in s'.pending && (id in x.packer.pending ==> id in l'.fates && l'.fates[id] == Cancelled)
            else
              && (id in s'.pending <==> id in x.packer.pending)
              && (id in x.packer.pending ==> s'.pending[id] == x.packer.pending[id])
              && (id in l'.fates <==> id in x.ledger.fates)
              && (id in x.ledger.fates ==> l'.fates[id] == x.ledger.fates[id])
  {
    if id in x.packer.pending {
      CancelExactly(x.packer, st, id);
      assert x.packets[id] == x.packer.pending[id].frames;
      assert id in Packers.Cancelled(x.packer, st) <==> id !in Packers.Cancel(x.packer, st).pending;
    }
  }

  lemma ReadActs(v: Variant, x: Endpoint, y: Endpoint, st: nat, room: nat, other: nat)
    requires st in x.recv
    ensures var x', r := Act(v, x, y, Connection.Read(st, room)), x.recv[st].readBuf;
            var n := if room <= |r| then room else |r|;
            && st in x'.recv && x'.recv[st] == x.recv[st].(readBuf := r[n..])
            && At(x'.delivered, st) == At(x.delivered, st) + r[..n]
            && (other != st ==> At(x'.delivered, other) == At(x.delivered, other)
                                && (other in x.recv ==> other in x'.recv && x'.recv[other] == x.recv[other]))
  {
  }

  /** In every run: a read hands over the next bytes that are there, as many as there is room for, and with
      enough room everything up to what is expected next; no other stream is touched. */
  lemma ReadDelivers(v: Variant, max: nat, events: seq<Event>, states: seq<System>, i: nat, st: nat, room: nat,
                     other: nat)
    requires IsRun(v, max, events, states) && i < |states| && st in states[i].right.recv
    ensures var s, y := states[i], states[i].right;
            var y' := Connection.Next(v, s, Event(Right, Connection.Read(st, room))).right;
            var n := if room <= |y.recv[st].readBuf| then room else |y.recv[st].readBuf|;
            && st in y'.recv && y'.recv[st].expected == y.recv[st].expected
            && |At(y'.delivered, st)| == |At(y.delivered, st)| + n
            && At(y'.delivered, st) + y'.recv[st].readBuf == At(y.delivered, st) + y.recv[st].readBuf
            && At(y'.delivered, st) <= At(s.left.written, st)
            && (room >= |y.recv[st].readBuf| ==> |At(y'.delivered, st)| == y.recv[st].expected)
            && (other != st ==> At(y'.delivered, other) == At(y.delivered, other)
                                && (other in y.recv ==> other in y'.recv && y'.recv[other] == y.recv[other]))
  {
    hide IsRun, Act;
    PrefixSafety(v, max, events, states, i, st);
    var y := states[i].right;
    var d, r := At(y.delivered, st), y.recv[st].readBuf;
    ReadActs(v, y, states[i].left, st, room, other);
    Cut(d, r, if room <= |r| then room else |r|);
  }

  lemma Cut(d: seq<byte>, r: seq<byte>, n: nat)
    requires n <= |r|
    ensures (d + r[..n]) + r[n..] == d + r && d + r[..n] <= d + r
  {
    assert r[..n] + r[n..] == r;
  }
}
