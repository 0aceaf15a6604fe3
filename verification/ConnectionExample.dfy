/** A run of the program as written in which nothing is lost on the way and everything is acknowledged,
    and still the second of two writes never arrives. Both were buffered before the submission of
    either, as happens when two goroutines write; they went into one packet, and the packet reads
    back as two copies of its first frame. */
module ConnectionExample {
  import opened AckRanges
  import opened Bytes
  import opened Common
  import opened Connection
  import opened ConnectionRuns
  import opened Frames
  import opened Packers
  import opened PackerRuns
  import opened RecvStreams
  import opened SendStreams
  import Packets

  const MAX: nat := 1048576

  const FIRST := Stream(1, 0, false, [10])
  const SECOND := Stream(1, 1, false, [11])
  const ACK := Ack(1, 0, [AckRange(1, 1)])

  // ----- The sender -----

  /** After Create(1) and Register(1). */
  const OPEN := NewEndpoint(MAX).(
    packer := State(MAX, map[], map[1 := 0], map[], {1}, map[], 0, 0),
    send := map[1 := EMPTY_SEND], recv := map[1 := EMPTY_RECV],
    written := map[1 := []], delivered := map[1 := []], tiles := map[1 := NO_TILES])

  lemma Opens(v: Variant, y: Endpoint, y': Endpoint)
    ensures Act(v, Act(v, NewEndpoint(MAX), y, Create(1)), y', Register(1)) == OPEN
  {
    assert Act(v, NewEndpoint(MAX), y, Create(1)) == Created(NewEndpoint(MAX), 1);
    assert Packers.Register(NewEndpoint(MAX).packer, 1) == OPEN.packer;
  }

  /** After AppWrite(1, [10]) and AppWrite(1, [11]). */
  const WROTE := OPEN.(send := map[1 := Send(0, [[10], [11]], 2, true)], written := map[1 := [10, 11]])

  lemma Writes(v: Variant, y: Endpoint)
    ensures Act(v, Act(v, OPEN, y, AppWrite(1, [10])), y, AppWrite(1, [11])) == WROTE
  {
    hide Act, Wrote;
    var x1 := OPEN.(send := map[1 := Send(0, [[10]], 1, true)], written := map[1 := [10]]);
    WriteActs(v, OPEN, y, [10]);
    WriteActs(v, x1, y, [11]);
    FirstWrite();
    SecondWrite(x1);
  }

  lemma WriteActs(v: Variant, x: Endpoint, y: Endpoint, d: seq<byte>)
    requires 1 in x.send && d != []
    ensures Act(v, x, y, AppWrite(1, d)) == Wrote(x, 1, d)
  {
    hide Wrote;
  }

  lemma FirstWrite()
    ensures Wrote(OPEN, 1, [10]) == OPEN.(send := map[1 := Send(0, [[10]], 1, true)], written := map[1 := [10]])
  {
    assert OPEN.written[1] + [10] == [10];
    assert Written(EMPTY_SEND, [10]) == Send(0, [[10]], 1, true);
  }

  lemma SecondWrite(x: Endpoint)
    requires x == OPEN.(send := map[1 := Send(0, [[10]], 1, true)], written := map[1 := [10]])
    ensures Wrote(x, 1, [11]) == WROTE
  {
    assert x.written[1] + [11] == [10, 11];
    assert Written(x.send[1], [11]) == Send(0, [[10], [11]], 2, true);
  }

  /** One packet holds both frames. */
  ghost predicate Sent(x: Endpoint) {
    && x.packets == map[ONE := [FIRST, SECOND]] && x.net == {ONE} && x.lossless
    && x.packer.pending.Keys == {ONE} && x.ledger.fates == map[]
    && x.send.Keys == {1} && x.send[1].chunks == [] && x.written == map[1 := [10, 11]]
    && x.processing == map[] && x.job.None?
    && (forall q :: q in x.home ==> x.home[q] == ONE)
  }

  lemma BothPopped()
    ensures Popped(1, WROTE.send[1], MAX) == ([FIRST, SECOND], Send(2, [], 2, false))
  {
    var chunks: seq<seq<byte>> := [[10], [11]];
    var none: seq<seq<byte>> := [];
    assert chunks[1..] == [[11]] && [[11]][1..] == none;
    assert PopLoop(1, 2, none, MAX - 2) == ([], none);
    assert [SECOND] + [] == [SECOND] && [FIRST] + [SECOND] == [FIRST, SECOND];
    assert PopLoop(1, 1, [[11]], MAX - 1) == ([SECOND], none);
    assert PopLoop(1, 0, chunks, MAX) == ([FIRST, SECOND], none);
    assert [FIRST, SECOND][1..] == [SECOND] && [SECOND][1..] == [];
    assert Payload([SECOND]) == [11] + Payload([]);
    assert Payload([FIRST, SECOND]) == [10] + Payload([SECOND]);
  }

  lemma BothFit()
    ensures Fit(MAX, [FIRST, SECOND], 0) == Some([FIRST, SECOND])
    ensures Packets.BodyLength([FIRST, SECOND]) == 71
  {
    assert [FIRST, SECOND][1..] == [SECOND] && [SECOND][1..] == [];
    assert [SECOND] + [] == [SECOND] && [FIRST] + [SECOND] == [FIRST, SECOND];
    assert Fit(MAX, [], 44) == Some([]);
    assert Fit(MAX, [SECOND], 22) == Some([SECOND]);
    assert Packets.TotalSize([SECOND]) == 27 + Packets.TotalSize([]);
    assert Packets.TotalSize([FIRST, SECOND]) == 27 + Packets.TotalSize([SECOND]);
  }

  lemma BothRecorded()
    ensures var (s', send', r) := SubmitFromSendStream(WROTE.packer, 1, 1, WROTE.send[1], 0, NoError);
            && send' == Send(2, [], 2, false) && r == Submitted(ONE, NoError)
            && s'.pending == map[ONE := Pending([FIRST, SECOND], 1, 1, 200)]
  {
    BothPopped();
    BothFit();
  }

  lemma Sends(v: Variant, y: Endpoint)
    ensures Sent(Act(v, WROTE, y, Submit(1, 1, 0, NoError)))
  {
    hide SubmitFromSendStream, Popped, Account, Extend, WithHomes;
    BothPopped();
    BothRecorded();
    HomesAre([FIRST, SECOND]);
  }

  lemma HomesAre(fs: seq<Frame>)
    requires StreamFrames(fs)
    ensures forall q :: q in WithHomes(map[], 1, fs, Submitted(ONE, NoError)) ==>
                          WithHomes(map[], 1, fs, Submitted(ONE, NoError))[q] == ONE
  {
  }

  // ----- The receiver -----

  /** Both copies of the first frame were handled, and the packet is to be acknowledged. */
  ghost predicate Handled(y: Endpoint) {
    && y.packer == OPEN.packer && y.ledger == NO_HISTORY && y.packets == map[] && y.net == {}
    && y.received == map[1 := {1}] && y.processing == map[] && y.job.None?
    && y.recv == map[1 := Recv(1, map[], [10], false)] && y.delivered == map[1 := []] && y.lost == {}
  }

  lemma ReadsAsCopies()
    ensures Packets.Received(AsWritten, [FIRST, SECOND]) == [FIRST, FIRST]
  {
    assert Packets.Copies(FIRST, 2) == [FIRST, FIRST];
  }

  /** The receiver with `k` frames of the packet handled. */
  function Handling(r: Recv, k: nat): Endpoint {
    OPEN.(received := map[1 := {1}], recorded := {ONE}, processing := map[1 := (ONE, k)], recv := map[1 := r])
  }

  lemma Receives(x: Endpoint)
    requires Sent(x)
    ensures Act(AsWritten, OPEN, x, Receive(ONE)) == Handling(EMPTY_RECV, 0)
  {
    assert {} + {1} == {1};
    assert Recording(OPEN.received, 1, 1) == map[1 := {1}];
  }

  lemma SecondCopyIsOld()
    ensures var r := Recv(1, map[], [10], false);
            && HandleFrame(AsWritten, EMPTY_RECV, 0, [10], false) == r && Discarded(EMPTY_RECV, 0, [10]).None?
            && HandleFrame(AsWritten, r, 0, [10], false) == r && Discarded(r, 0, [10]).None?
  {
    assert [] + [10] == [10];
  }

  lemma HandlesCopy(x: Endpoint, r: Recv, r': Recv, k: nat)
    requires Sent(x) && k < 2 && HandleFrame(AsWritten, r, 0, [10], false) == r' && Discarded(r, 0, [10]).None?
    ensures Act(AsWritten, Handling(r, k), x, HandleNext(1)) == Handling(r', k + 1)
  {
    hide HandleFrame, Discarded;
    ReadsAsCopies();
  }

  lemma HandlesEnd(x: Endpoint, r: Recv)
    requires Sent(x) && r == Recv(1, map[], [10], false)
    ensures Handled(Act(AsWritten, Handling(r, 2), x, HandleNext(1)))
  {
    hide HandleFrame, Discarded;
    ReadsAsCopies();
  }

  lemma HandlesCopies(x: Endpoint)
    requires Sent(x)
    ensures var y1 := Act(AsWritten, Handling(EMPTY_RECV, 0), x, HandleNext(1));
            Handled(Act(AsWritten, Act(AsWritten, y1, x, HandleNext(1)), x, HandleNext(1)))
  {
    hide HandleFrame, Discarded, Act, Sent, Handled, Handling;
    var r := Recv(1, map[], [10], false);
    SecondCopyIsOld();
    HandlesCopy(x, EMPTY_RECV, r, 0);
    HandlesCopy(x, r, r, 1);
    HandlesEnd(x, r);
  }

  /** The ACK is on the way. */
  ghost predicate Acking(y: Endpoint) {
    && y.packets == map[ONE := [ACK]] && y.net == {ONE}
    && y.processing == map[] && y.recv == map[1 := Recv(1, map[], [10], false)]
    && y.delivered == map[1 := []] && y.lost == {}
  }

  lemma OneRange()
    ensures Describes([AckRange(1, 1)], {1})
  {
    assert forall x: nat :: Covers([AckRange(1, 1)], x) ==> x == 1;
    assert [AckRange(1, 1)][0].smallest <= 1 <= [AckRange(1, 1)][0].largest;
  }

  lemma AckRecorded()
    ensures var (s', r) := SubmitFrame(OPEN.packer, 1, ACK, 0, 0, NoError);
            r == Submitted(ONE, NoError) && s'.pending == map[ONE := Pending([ACK], 0, 1, 200)]
  {
    assert [] + [ACK] == [ACK] && [ACK][1..] == [];
    assert Packets.TotalSize([ACK]) == 41;
  }

  lemma Acknowledges(x: Endpoint, y: Endpoint)
    requires Handled(y)
    ensures var y1 := Act(AsWritten, y, x, AckSnapshot(1, [AckRange(1, 1)]));
            Acking(Act(AsWritten, y1, x, AckSubmit(0, NoError)))
  {
    hide SubmitFrame, Describes, Account;
    OneRange();
    AckRecorded();
    var y1 := y.(job := Some(AckJob(1, [AckRange(1, 1)], false)));
    assert Act(AsWritten, y, x, AckSnapshot(1, [AckRange(1, 1)])) == y1;
    assert AckFrame(y1.job.value) == ACK;
  }

  // ----- The acknowledgement -----

  lemma TakesAck(x: Endpoint, y: Endpoint)
    requires Sent(x) && Acking(y)
    ensures var x1 := Act(AsWritten, x, y, Receive(ONE));
            var x3 := Act(AsWritten, Act(AsWritten, x1, y, HandleNext(1)), y, HandleNext(1));
            Quiet(x3, 1) && x3.lossless && x3.written == map[1 := [10, 11]]
  {
    var x1 := x.(received := Recording(x.received, 1, 1), recorded := x.recorded + {ONE},
                 processing := map[1 := (ONE, 0)]);
    assert Act(AsWritten, x, y, Receive(ONE)) == x1;
    assert Packets.Received(AsWritten, [ACK]) == [ACK] by {
      assert Packets.Copies(ACK, 1) == [ACK];
    }
    AckRetires(x);
    HandlesAck(x1, y);
  }

  lemma AckRetires(x: Endpoint)
    requires Sent(x)
    ensures var s := OnAck(x.packer, 1, [AckRange(1, 1)]);
            var l := Account(x.ledger, x.packer, AckOp(1, [AckRange(1, 1)]));
            s.pending == map[] && l.fates == map[ONE := Acked]
  {
    OneRange();
    assert Covers([AckRange(1, 1)], 1);
    assert AckedBy(x.packer, 1, [AckRange(1, 1)]) == {ONE};
  }

  lemma HandlesAck(x: Endpoint, y: Endpoint)
    requires Acking(y) && x.processing == map[1 := (ONE, 0)] && Packets.Received(AsWritten, [ACK]) == [ACK]
    requires OnAck(x.packer, 1, [AckRange(1, 1)]).pending == map[]
    requires Account(x.ledger, x.packer, AckOp(1, [AckRange(1, 1)])).fates == map[ONE := Acked]
    requires x.send.Keys == {1} && x.send[1].chunks == [] && x.lossless && x.written == map[1 := [10, 11]]
    requires forall q :: q in x.home ==> x.home[q] == ONE
    ensures var x3 := Act(AsWritten, Act(AsWritten, x, y, HandleNext(1)), y, HandleNext(1));
            Quiet(x3, 1) && x3.lossless && x3.written == map[1 := [10, 11]]
  {
    hide Act;
    DispatchesAck(x, y);
    EndsPacket(Act(AsWritten, x, y, HandleNext(1)), y);
  }

  lemma DispatchesAck(x: Endpoint, y: Endpoint)
    requires Acking(y) && x.processing == map[1 := (ONE, 0)] && Packets.Received(AsWritten, [ACK]) == [ACK]
    ensures Act(AsWritten, x, y, HandleNext(1)) ==
            x.(packer := OnAck(x.packer, 1, [AckRange(1, 1)]),
               ledger := Account(x.ledger, x.packer, AckOp(1, [AckRange(1, 1)])),
               processing := map[1 := (ONE, 1)])
  {
    hide OnAck, Account;
  }

  lemma EndsPacket(x: Endpoint, y: Endpoint)
    requires Acking(y) && x.processing == map[1 := (ONE, 1)] && Packets.Received(AsWritten, [ACK]) == [ACK]
    ensures Act(AsWritten, x, y, HandleNext(1)) == x.(processing := map[])
  {
    hide OnAck, Account, Dispatch;
  }

  // ----- The run -----

  /** The system after these events. */
  ghost function After(v: Variant, max: nat, events: seq<Event>): System
    decreases |events|
  {
    if events == [] then System(NewEndpoint(max), NewEndpoint(max))
    else Connection.Next(v, After(v, max, events[..|events| - 1]), events[|events| - 1])
  }

  ghost function States(v: Variant, max: nat, events: seq<Event>): (states: seq<System>)
    ensures |states| == |events| + 1 && states[|events|] == After(v, max, events)
  {
    var states := seq(|events| + 1, i requires 0 <= i <= |events| => After(v, max, events[..i]));
    assert events[..|events|] == events;
    states
  }

  lemma StatesAreARun(v: Variant, max: nat, events: seq<Event>)
    ensures IsRun(v, max, events, States(v, max, events))
  {
    forall i {:trigger events[i]} | 0 <= i < |events|
      ensures States(v, max, events)[i + 1] == Connection.Next(v, States(v, max, events)[i], events[i])
    {
      assert events[..i + 1][..i] == events[..i];
    }
  }

  lemma AfterSnoc(v: Variant, max: nat, events: seq<Event>, e: Event)
    ensures After(v, max, events + [e]) == Connection.Next(v, After(v, max, events), e)
  {
    assert (events + [e])[..|events|] == events;
  }

  /** Two more steps of one side. */
  lemma After2(v: Variant, max: nat, events: seq<Event>, side: Side, a: Step, b: Step)
    ensures var s, s' := After(v, max, events), After(v, max, events + [Event(side, a), Event(side, b)]);
            if side.Left? then s' == s.(left := Act(v, Act(v, s.left, s.right, a), s.right, b))
            else s' == s.(right := Act(v, Act(v, s.right, s.left, a), s.left, b))
  {
    hide Act;
    AfterSnoc(v, max, events, Event(side, a));
    AfterSnoc(v, max, events + [Event(side, a)], Event(side, b));
    assert events + [Event(side, a)] + [Event(side, b)] == events + [Event(side, a), Event(side, b)];
  }

  lemma After3(v: Variant, max: nat, events: seq<Event>, side: Side, a: Step, b: Step, c: Step)
    ensures var s := After(v, max, events);
            var s' := After(v, max, events + [Event(side, a), Event(side, b), Event(side, c)]);
            if side.Left? then
              s' == s.(left := Act(v, Act(v, Act(v, s.left, s.right, a), s.right, b), s.right, c))
            else
              s' == s.(right := Act(v, Act(v, Act(v, s.right, s.left, a), s.left, b), s.left, c))
  {
    hide Act;
    After2(v, max, events, side, a, b);
    AfterSnoc(v, max, events + [Event(side, a), Event(side, b)], Event(side, c));
    assert events + [Event(side, a), Event(side, b)] + [Event(side, c)]
        == events + [Event(side, a), Event(side, b), Event(side, c)];
  }

  const BOTH_OPEN: seq<Event> :=
    [] + [Event(Left, Create(1)), Event(Left, Register(1))] + [Event(Right, Create(1)), Event(Right, Register(1))]

  const BOTH_SENT: seq<Event> :=
    BOTH_OPEN + [Event(Left, AppWrite(1, [10])), Event(Left, AppWrite(1, [11])), Event(Left, Submit(1, 1, 0, NoError))]

  const ALL_HANDLED: seq<Event> :=
    BOTH_SENT + [Event(Right, Receive(ONE))]
    + [Event(Right, HandleNext(1)), Event(Right, HandleNext(1)), Event(Right, HandleNext(1))]

  const EVENTS: seq<Event> :=
    ALL_HANDLED + [Event(Right, AckSnapshot(1, [AckRange(1, 1)])), Event(Right, AckSubmit(0, NoError))]
    + [Event(Left, Receive(ONE)), Event(Left, HandleNext(1)), Event(Left, HandleNext(1))]

  lemma PacketSent()
    ensures var s := After(AsWritten, MAX, BOTH_SENT); Sent(s.left) && s.right == OPEN
  {
    hide Act, After, Sent;
    Nothing();
    var none: seq<Event> := [];
    var l := [Event(Left, Create(1)), Event(Left, Register(1))];
    After2(AsWritten, MAX, none, Left, Create(1), Register(1));
    Opens(AsWritten, NewEndpoint(MAX), NewEndpoint(MAX));
    After2(AsWritten, MAX, none + l, Right, Create(1), Register(1));
    Opens(AsWritten, OPEN, OPEN);
    After3(AsWritten, MAX, BOTH_OPEN, Left, AppWrite(1, [10]), AppWrite(1, [11]), Submit(1, 1, 0, NoError));
    Writes(AsWritten, OPEN);
    Sends(AsWritten, OPEN);
  }

  lemma Nothing()
    ensures After(AsWritten, MAX, []) == System(NewEndpoint(MAX), NewEndpoint(MAX))
  {
  }

  lemma CopiesHandled()
    ensures var s := After(AsWritten, MAX, ALL_HANDLED); Sent(s.left) && Handled(s.right)
  {
    hide Act, After, Sent, Handled;
    PacketSent();
    var x := After(AsWritten, MAX, BOTH_SENT).left;
    AfterSnoc(AsWritten, MAX, BOTH_SENT, Event(Right, Receive(ONE)));
    Receives(x);
    var received := BOTH_SENT + [Event(Right, Receive(ONE))];
    After3(AsWritten, MAX, received, Right, HandleNext(1), HandleNext(1), HandleNext(1));
    HandlesCopies(x);
  }

  /** Everything popped was recorded, everything recorded was acknowledged, nothing was thrown away, and
      the receiver has handled all it received; the second byte is not there. */
  lemma SecondWriteNeverArrives()
    ensures var states := States(AsWritten, MAX, EVENTS);
            && IsRun(AsWritten, MAX, EVENTS, states)
            && var x, y := states[|EVENTS|].left, states[|EVENTS|].right;
            && x.lossless && Quiet(x, 1) && Settled(x, y, 1) && CameBack(y, 1)
            && !Complete(x, y, 1) && y.recv[1].readBuf == [10] && At(x.written, 1) == [10, 11]
  {
    hide Act, After, Sent, Handled, Acking, IsRun, Quiet;
    StatesAreARun(AsWritten, MAX, EVENTS);
    CopiesHandled();
    var s := After(AsWritten, MAX, ALL_HANDLED);
    var acked := ALL_HANDLED + [Event(Right, AckSnapshot(1, [AckRange(1, 1)])), Event(Right, AckSubmit(0, NoError))];
    After2(AsWritten, MAX, ALL_HANDLED, Right, AckSnapshot(1, [AckRange(1, 1)]), AckSubmit(0, NoError));
    Acknowledges(s.left, s.right);
    After3(AsWritten, MAX, acked, Left, Receive(ONE), HandleNext(1), HandleNext(1));
    TakesAck(s.left, After(AsWritten, MAX, acked).right);
    Conclude(After(AsWritten, MAX, EVENTS).left, After(AsWritten, MAX, EVENTS).right);
  }

  lemma Conclude(x: Endpoint, y: Endpoint)
    requires Acking(y) && x.written == map[1 := [10, 11]]
    ensures Settled(x, y, 1) && CameBack(y, 1) && !Complete(x, y, 1)
    ensures y.recv[1].readBuf == [10] && At(x.written, 1) == [10, 11]
  {
    assert [] + y.recv[1].readBuf == [10];
  }
}
