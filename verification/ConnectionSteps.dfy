/** Every step of an endpoint keeps the invariant. */
module ConnectionSteps {
  import opened AckRanges
  import opened Bytes
  import opened Common
  import opened Connection
  import opened ConnectionInvariant
  import opened Frames
  import opened Packers
  import opened PackerRuns
  import opened RecvStreams
  import opened SendStreams
  import Packets

  // ----- Opening a stream -----

  lemma NewStreamOk(send: map<nat, Send>, written: map<nat, seq<byte>>, tiles: map<nat, Tiling>, st: nat)
    requires StreamsOk(send, written, tiles)
    ensures StreamsOk(send[st := EMPTY_SEND], written[st := []], tiles[st := NO_TILES])
  {
    NothingOk();
    UpdatedStreams(send, written, tiles, st, EMPTY_SEND, [], NO_TILES);
  }

  lemma NothingOk()
    ensures StreamOk(EMPTY_SEND, [], NO_TILES)
  {
  }

  lemma UpdatedStreams<A, B, C>(a: map<nat, A>, b: map<nat, B>, c: map<nat, C>, st: nat, va: A, vb: B, vc: C)
    requires SameStreams(a, b, c)
    ensures SameStreams(a[st := va], b[st := vb], c[st := vc])
  {
  }

  lemma NewTilesFrames(packets: map<PacketId, seq<Frame>>, tiles: map<nat, Tiling>, st: nat)
    requires FramesOk(packets, tiles) && st !in tiles
    ensures FramesOk(packets, tiles[st := NO_TILES])
  {
    forall id, i | id in packets && 0 <= i < |packets[id]|
      ensures FrameOk(tiles[st := NO_TILES], packets[id][i])
    {
      assert FrameOk(tiles, packets[id][i]);
    }
  }

  lemma NewTilesHome(lossless: bool, tiles: map<nat, Tiling>, home: map<(nat, nat), PacketId>,
                     packets: map<PacketId, seq<Frame>>, st: nat)
    requires HomeOk(lossless, tiles, home, packets)
    ensures HomeOk(lossless, tiles[st := NO_TILES], home, packets)
  {
  }

  lemma NewSourceFlows(recv: map<nat, Recv>, delivered: map<nat, seq<byte>>, written: map<nat, seq<byte>>,
                       tiles: map<nat, Tiling>, st: nat)
    requires FlowsOk(recv, delivered, written, tiles) && st !in written && st !in tiles
    ensures FlowsOk(recv, delivered, written[st := []], tiles[st := NO_TILES])
  {
    forall s | s in recv
      ensures FlowOk(recv[s], At(delivered, s), At(written[st := []], s), TilesAt(tiles[st := NO_TILES], s))
    {
      assert FlowOk(recv[s], At(delivered, s), At(written, s), TilesAt(tiles, s));
    }
  }

  lemma NewSinkFlows(recv: map<nat, Recv>, delivered: map<nat, seq<byte>>, written: map<nat, seq<byte>>,
                     tiles: map<nat, Tiling>, st: nat)
    requires FlowsOk(recv, delivered, written, tiles) && TilesAt(tiles, st).Boundary(0)
    ensures FlowsOk(recv[st := EMPTY_RECV], delivered[st := []], written, tiles)
  {
    forall s | s in recv[st := EMPTY_RECV]
      ensures FlowOk(recv[st := EMPTY_RECV][s], At(delivered[st := []], s), At(written, s), TilesAt(tiles, s))
    {
      if s != st {
        assert FlowOk(recv[s], At(delivered, s), At(written, s), TilesAt(tiles, s));
      }
    }
  }

  lemma NewSinkHandled(v: Variant, recv: map<nat, Recv>, lost: set<(nat, nat)>, recorded: set<PacketId>,
                       processing: map<PathId, (PacketId, nat)>, packets: map<PacketId, seq<Frame>>, st: nat)
    requires HandledOk(v, recv, lost, recorded, processing, packets) && st !in recv
    ensures HandledOk(v, recv[st := EMPTY_RECV], lost, recorded, processing, packets)
  {
    forall id, k | id in recorded && id in packets
                   && 0 <= k < Done(processing, id, |Packets.Received(v, packets[id])|)
      ensures Accounted(recv[st := EMPTY_RECV], lost, Packets.Received(v, packets[id])[k])
    {
      assert Accounted(recv, lost, Packets.Received(v, packets[id])[k]);
    }
  }

  lemma BoundaryOfNothing(send: map<nat, Send>, written: map<nat, seq<byte>>, tiles: map<nat, Tiling>, st: nat)
    requires StreamsOk(send, written, tiles)
    ensures TilesAt(tiles, st).Boundary(0)
  {
    if st in tiles {
      assert StreamOk(send[st], written[st], tiles[st]);
    }
  }

  lemma CreateLocal(x: Endpoint, st: nat)
    requires Local(x) && st !in x.send
    ensures Local(Created(x, st))
  {
    NewStreamOk(x.send, x.written, x.tiles, st);
    NewTilesFrames(x.packets, x.tiles, st);
    NewTilesHome(x.lossless, x.tiles, x.home, x.packets, st);
    UpdatedStreams(x.send, x.recv, x.delivered, st, EMPTY_SEND, EMPTY_RECV, []);
  }

  lemma NewTilesLost(lost: set<(nat, nat)>, tiles: map<nat, Tiling>, st: nat)
    requires LostOk(lost, tiles) && st !in tiles
    ensures LostOk(lost, tiles[st := NO_TILES])
  {
  }

  lemma NewTilesHeld(v: Variant, recv: map<nat, Recv>, tiles: map<nat, Tiling>, packets: map<PacketId, seq<Frame>>,
                     st: nat)
    requires HeldOk(v, recv, tiles, packets)
    ensures HeldOk(v, recv, tiles[st := NO_TILES], packets)
  {
  }

  /** What is held after a step was held before it. */
  lemma HeldStays(v: Variant, recv: map<nat, Recv>, recv': map<nat, Recv>, tiles: map<nat, Tiling>,
                  packets: map<PacketId, seq<Frame>>)
    requires HeldOk(v, recv, tiles, packets)
    requires forall st, o: nat :: st in recv' && Held(recv'[st], o) ==> st in recv && Held(recv[st], o)
    ensures HeldOk(v, recv', tiles, packets)
  {
  }

  lemma CreateOut(v: Variant, x: Endpoint, y: Endpoint, st: nat)
    requires Link(v, x, y) && st !in x.written && st !in x.tiles
    ensures Link(v, Created(x, st), y)
  {
    NewSourceFlows(y.recv, y.delivered, x.written, x.tiles, st);
    NewTilesLost(y.lost, x.tiles, st);
    NewTilesHeld(v, y.recv, x.tiles, x.packets, st);
  }

  lemma CreateIn(v: Variant, x: Endpoint, y: Endpoint, st: nat)
    requires Link(v, y, x) && st !in x.recv && TilesAt(y.tiles, st).Boundary(0)
    ensures Link(v, y, Created(x, st))
  {
    NewSinkFlows(x.recv, x.delivered, y.written, y.tiles, st);
    NewSinkHandled(v, x.recv, x.lost, x.recorded, x.processing, y.packets, st);
    HeldStays(v, x.recv, x.recv[st := EMPTY_RECV], y.tiles, y.packets);
  }

  lemma CreateKept(v: Variant, x: Endpoint, y: Endpoint, st: nat)
    requires Before(v, x, y) && st !in x.send
    ensures Kept(v, Created(x, st), y)
  {
    CreateLocal(x, st);
    CreateOut(v, x, y, st);
    BoundaryOfNothing(y.send, y.written, y.tiles, st);
    CreateIn(v, x, y, st);
  }

  // ----- Writing and reading -----

  lemma WrittenStreamOk(send: Send, w: seq<byte>, t: Tiling, d: seq<byte>)
    requires StreamOk(send, w, t) && d != []
    ensures StreamOk(Written(send, d), w + d, t)
  {
    WriteKeepsConsistent(send, d);
    assert (w + d)[send.base..] == w[send.base..] + d;
    forall o | o in t.tiles
      ensures IsSlice(w + d, o, t.tiles[o])
    {
      assert IsSlice(w, o, t.tiles[o]);
      assert (w + d)[o..o + |t.tiles[o]|] == w[o..o + |t.tiles[o]|];
    }
  }

  lemma WrittenStreamsOk(send: map<nat, Send>, written: map<nat, seq<byte>>, tiles: map<nat, Tiling>, st: nat,
                         d: seq<byte>)
    requires StreamsOk(send, written, tiles) && st in send && d != []
    ensures StreamsOk(send[st := Written(send[st], d)], written[st := written[st] + d], tiles)
  {
    assert StreamOk(send[st], written[st], tiles[st]);
    WrittenStreamOk(send[st], written[st], tiles[st], d);
    SameKeys(send, st, Written(send[st], d));
    SameKeys(written, st, written[st] + d);
  }

  lemma SameKeys<A>(m: map<nat, A>, st: nat, a: A)
    requires st in m
    ensures m[st := a].Keys == m.Keys
  {
  }

  lemma WrittenFlows(recv: map<nat, Recv>, delivered: map<nat, seq<byte>>, written: map<nat, seq<byte>>,
                     tiles: map<nat, Tiling>, st: nat, d: seq<byte>)
    requires FlowsOk(recv, delivered, written, tiles)
    ensures FlowsOk(recv, delivered, written[st := At(written, st) + d], tiles)
  {
    forall s | s in recv
      ensures FlowOk(recv[s], At(delivered, s), At(written[st := At(written, st) + d], s), TilesAt(tiles, s))
    {
      assert FlowOk(recv[s], At(delivered, s), At(written, s), TilesAt(tiles, s));
      if s == st {
        FaithfulAsStreamGrows(recv[s], At(delivered, s), At(written, s), d);
      }
    }
  }

  lemma AppWriteKept(v: Variant, x: Endpoint, y: Endpoint, st: nat, d: seq<byte>)
    requires Before(v, x, y) && st in x.send && d != []
    ensures Kept(v, Wrote(x, st, d), y)
  {
    AppWriteLocal(x, st, d);
    AppWriteOut(v, x, y, st, d);
  }

  lemma AppWriteLocal(x: Endpoint, st: nat, d: seq<byte>)
    requires Local(x) && st in x.send && d != []
    ensures Local(Wrote(x, st, d))
  {
    WrittenStreamsOk(x.send, x.written, x.tiles, st, d);
    SameKeys(x.send, st, Written(x.send[st], d));
  }

  lemma AppWriteOut(v: Variant, x: Endpoint, y: Endpoint, st: nat, d: seq<byte>)
    requires Link(v, x, y) && st in x.send
    ensures Link(v, Wrote(x, st, d), y)
  {
    WrittenFlows(y.recv, y.delivered, x.written, x.tiles, st, d);
  }

  lemma ReadFlow(r: Recv, delivered: seq<byte>, w: seq<byte>, t: Tiling, n: nat)
    requires FlowOk(r, delivered, w, t) && n <= |r.readBuf|
    ensures FlowOk(r.(readBuf := r.readBuf[n..]), delivered + r.readBuf[..n], w, t)
  {
    assert (delivered + r.readBuf[..n]) + r.readBuf[n..] == delivered + r.readBuf;
  }

  lemma ReadFlows(recv: map<nat, Recv>, delivered: map<nat, seq<byte>>, written: map<nat, seq<byte>>,
                  tiles: map<nat, Tiling>, st: nat, n: nat)
    requires FlowsOk(recv, delivered, written, tiles) && st in recv && n <= |recv[st].readBuf|
    ensures FlowsOk(recv[st := recv[st].(readBuf := recv[st].readBuf[n..])],
                    delivered[st := At(delivered, st) + recv[st].readBuf[..n]], written, tiles)
  {
    var recv' := recv[st := recv[st].(readBuf := recv[st].readBuf[n..])];
    var delivered' := delivered[st := At(delivered, st) + recv[st].readBuf[..n]];
    forall s | s in recv'
      ensures FlowOk(recv'[s], At(delivered', s), At(written, s), TilesAt(tiles, s))
    {
      assert FlowOk(recv[s], At(delivered, s), At(written, s), TilesAt(tiles, s));
      if s == st {
        ReadFlow(recv[s], At(delivered, s), At(written, s), TilesAt(tiles, s), n);
      }
    }
  }

  /** Nothing that is held stops being held, except frames that were lost. */
  ghost predicate Holds(recv: map<nat, Recv>, recv': map<nat, Recv>, lost': set<(nat, nat)>) {
    forall st, o: nat :: st in recv && Held(recv[st], o) && (st, o) !in lost' ==> st in recv' && Held(recv'[st], o)
  }

  lemma HandledStays(v: Variant, recv: map<nat, Recv>, lost: set<(nat, nat)>, recv': map<nat, Recv>,
                     lost': set<(nat, nat)>,
                     recorded: set<PacketId>, processing: map<PathId, (PacketId, nat)>,
                     packets: map<PacketId, seq<Frame>>)
    requires HandledOk(v, recv, lost, recorded, processing, packets)
    requires lost <= lost' && Holds(recv, recv', lost')
    ensures HandledOk(v, recv', lost', recorded, processing, packets)
  {
    forall id, k | id in recorded && id in packets
                   && 0 <= k < Done(processing, id, |Packets.Received(v, packets[id])|)
      ensures Accounted(recv', lost', Packets.Received(v, packets[id])[k])
    {
      assert Accounted(recv, lost, Packets.Received(v, packets[id])[k]);
    }
  }

  lemma ReadKept(v: Variant, x: Endpoint, y: Endpoint, st: nat, room: nat)
    requires Before(v, x, y) && st in x.recv
    ensures Kept(v, ReadOut(x, st, room), y)
  {
    ReadLocal(x, st, room);
    ReadIn(v, x, y, st, room);
  }

  lemma ReadLocal(x: Endpoint, st: nat, room: nat)
    requires Local(x) && st in x.recv
    ensures Local(ReadOut(x, st, room))
  {
    var x' := ReadOut(x, st, room);
    SameKeys(x.recv, st, x'.recv[st]);
    SameKeys(x.delivered, st, x'.delivered[st]);
  }

  lemma ReadIn(v: Variant, x: Endpoint, y: Endpoint, st: nat, room: nat)
    requires Link(v, y, x) && st in x.recv
    ensures Link(v, y, ReadOut(x, st, room))
  {
    var n := Min(room, |x.recv[st].readBuf|);
    var recv' := x.recv[st := x.recv[st].(readBuf := x.recv[st].readBuf[n..])];
    ReadFlows(x.recv, x.delivered, y.written, y.tiles, st, n);
    assert Holds(x.recv, recv', x.lost);
    HandledStays(v, x.recv, x.lost, recv', x.lost, x.recorded, x.processing, y.packets);
    HeldStays(v, x.recv, recv', y.tiles, y.packets);
  }

  // ----- The packer's own steps -----

  /** The packer changed what is pending, and nothing was handed out or queued. */
  predicate Shrunk(s: State, s': State) {
    && s'.nextSeq == s.nextSeq && s'.queues == s.queues
    && (forall id :: id in s'.pending ==> id in s.pending && s'.pending[id].frames == s.pending[id].frames)
  }

  /** No packet was acknowledged or rejected. */
  ghost predicate NoNews(fates: map<PacketId, Fate>, fates': map<PacketId, Fate>) {
    forall id :: id in fates' && (id !in fates || fates'[id] != fates[id]) ==>
                   fates'[id] == Dropped || fates'[id] == Cancelled
  }

  lemma ShrunkTable(s: State, s': State, packets: map<PacketId, seq<Frame>>, net: set<PacketId>, net': set<PacketId>,
                    tasks: set<PacketId>, tasks': set<PacketId>, fates: map<PacketId, Fate>,
                    fates': map<PacketId, Fate>)
    requires TableOk(s, packets, net, tasks, fates) && Shrunk(s, s')
    requires forall id :: id in fates' && (id !in fates || fates'[id] != fates[id]) ==> fates'[id] != Fate.Rejected
    requires net' <= net + tasks && tasks' <= tasks + s.pending.Keys
    ensures TableOk(s', packets, net', tasks', fates')
  {
    assert forall p :: s'.Queue(p) == s.Queue(p);
    assert forall id :: Assigned(s', id) == Assigned(s, id);
  }

  lemma NoNewsAcked(fates: map<PacketId, Fate>, fates': map<PacketId, Fate>, recorded: set<PacketId>)
    requires AckedOk(fates, recorded) && NoNews(fates, fates')
    ensures AckedOk(fates', recorded)
  {
  }

  /** Steps that only shrink the packer's table. */
  lemma ShrunkKept(v: Variant, x: Endpoint, y: Endpoint, s': State, l': Ledger, net': set<PacketId>,
                   tasks': set<PacketId>)
    requires Before(v, x, y) && Balanced(s', l') && Shrunk(x.packer, s') && NoNews(x.ledger.fates, l'.fates)
    requires x.net <= net' <= x.net + x.tasks && tasks' <= x.tasks + x.packer.pending.Keys
    ensures Kept(v, x.(packer := s', ledger := l', net := net', tasks := tasks'), y)
  {
    ShrunkTable(x.packer, s', x.packets, x.net, net', x.tasks, tasks', x.ledger.fates, l'.fates);
    NoNewsAcked(x.ledger.fates, l'.fates, y.recorded);
  }

  lemma CollectShrinks(s: State, l: Ledger, now: nat)
    ensures Shrunk(s, Collect(s, now)) && NoNews(l.fates, Account(l, s, CollectOp(now)).fates)
    ensures Tasks(s, now) <= s.pending.Keys
  {
  }

  lemma UpdateShrinks(s: State, l: Ledger, id: PacketId, err: WriteError, now: nat, clock: nat)
    requires Balanced(s, l)
    ensures var s', l' := Update(s, id, err, now, clock), Account(l, s, UpdateOp(id, err, now, clock));
            Balanced(s', l') && Shrunk(s, s') && NoNews(l.fates, l'.fates)
  {
    UpdateBalanced(s, l, UpdateOp(id, err, now, clock));
    UpdateTable(s, l, id, err, now, clock);
  }

  lemma UpdateTable(s: State, l: Ledger, id: PacketId, err: WriteError, now: nat, clock: nat)
    ensures Shrunk(s, Update(s, id, err, now, clock))
    ensures NoNews(l.fates, Account(l, s, UpdateOp(id, err, now, clock)).fates)
  {
  }

  lemma CancelShrinks(s: State, l: Ledger, st: nat)
    requires Balanced(s, l)
    ensures var s', l' := Packers.Cancel(s, st), Account(l, s, CancelOp(st));
            Balanced(s', l') && Shrunk(s, s') && NoNews(l.fates, l'.fates)
  {
    CancelBalanced(s, l, st);
  }

  lemma CollectKept(v: Variant, x: Endpoint, y: Endpoint, now: nat)
    requires Before(v, x, y)
    ensures Kept(v, Collected(x, now), y)
  {
    CollectBalanced(x.packer, x.ledger, now);
    CollectShrinks(x.packer, x.ledger, now);
    ShrunkKept(v, x, y, Collect(x.packer, now), Account(x.ledger, x.packer, CollectOp(now)), x.net,
               Tasks(x.packer, now));
  }

  lemma UpdateKept(v: Variant, x: Endpoint, y: Endpoint, id: PacketId, err: WriteError, now: nat, clock: nat)
    requires Before(v, x, y) && id in x.tasks
    ensures Kept(v, Updated(x, id, err, now, clock), y)
  {
    hide Balanced, Shrunk, NoNews, Update, Account, StreamsOk, FramesOk, AckFramesOk, ReceivedOk, JobOk,
      HomeOk, HandledOk, FlowsOk;
    UpdateShrinks(x.packer, x.ledger, id, err, now, clock);
    ShrunkKept(v, x, y, Update(x.packer, id, err, now, clock),
               Account(x.ledger, x.packer, UpdateOp(id, err, now, clock)),
               if err.NoError? then x.net + {id} else x.net, x.tasks - {id});
  }

  lemma CancelKept(v: Variant, x: Endpoint, y: Endpoint, st: nat)
    requires Before(v, x, y)
    ensures Kept(v, StreamCancelled(x, st), y)
  {
    CancelShrinks(x.packer, x.ledger, st);
    ShrunkKept(v, x, y, Packers.Cancel(x.packer, st), Account(x.ledger, x.packer, CancelOp(st)), x.net, x.tasks);
  }

  lemma RegisterKept(v: Variant, x: Endpoint, y: Endpoint, p: PathId)
    requires Before(v, x, y)
    ensures Kept(v, x.(packer := Packers.Register(x.packer, p)), y)
  {
    RegisterBalanced(x.packer, x.ledger, p);
    RegisterTable(x.packer, p, x.packets, x.net, x.tasks, x.ledger.fates);
  }

  lemma RegisterTable(s: State, p: PathId, packets: map<PacketId, seq<Frame>>, net: set<PacketId>,
                      tasks: set<PacketId>, fates: map<PacketId, Fate>)
    requires TableOk(s, packets, net, tasks, fates)
    ensures TableOk(Packers.Register(s, p), packets, net, tasks, fates)
  {
    var s' := Packers.Register(s, p);
    assert forall q :: s'.Queue(q) == s.Queue(q);
    assert forall id :: Assigned(s', id) == Assigned(s, id);
  }
}
