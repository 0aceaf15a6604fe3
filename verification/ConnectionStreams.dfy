/** Submitting from a send stream keeps the invariant. */
module ConnectionStreams {
  import opened AckRanges
  import opened Assembly
  import opened Bytes
  import opened Common
  import opened Connection
  import opened ConnectionInvariant
  import opened ConnectionSteps
  import opened ConnectionSubmissions
  import opened Frames
  import opened Packers
  import opened PackerRuns
  import opened RecvStreams
  import opened SendStreams

  // ----- The frames of a stream grow -----

  /** This frame is one of the stream's. */
  predicate HasTile(t: Tiling, f: Frame) {
    f.Stream? && !f.fin && f.offset in t.tiles && t.tiles[f.offset] == f.data
  }

  /** Everything that stood in `t` stands in `t'`. */
  ghost predicate Grows(t: Tiling, t': Tiling) {
    && t.n <= t'.n
    && (forall o :: o in t.tiles ==> o in t'.tiles && t'.tiles[o] == t.tiles[o])
    && (forall b: nat :: t.Boundary(b) ==> t'.Boundary(b))
    && (forall o :: o in t'.tiles ==> o in t.tiles || t.n <= o)
  }

  /** `t'` is `t` with these frames of the stream `id` behind it. */
  ghost predicate Extended(t: Tiling, t': Tiling, fs: seq<Frame>, id: nat) {
    && Grows(t, t')
    && (forall i :: 0 <= i < |fs| ==> HasTile(t', fs[i]) && fs[i].streamId == id && t.n <= fs[i].offset)
    && (forall o :: o in t'.tiles ==> o in t.tiles || exists i :: 0 <= i < |fs| && fs[i].offset == o)
  }

  predicate NoFin(fs: seq<Frame>) {
    forall i :: 0 <= i < |fs| ==> fs[i].Stream? && !fs[i].fin
  }

  lemma {:induction false} PopLoopNoFin(id: nat, offset: nat, chunks: seq<seq<byte>>, budget: int)
    ensures NoFin(PopLoop(id, offset, chunks, budget).0)
    decreases |chunks|
  {
    if chunks != [] && 0 < budget && |chunks[0]| <= budget {
      PopLoopNoFin(id, offset + |chunks[0]|, chunks[1..], budget - |chunks[0]|);
    }
  }

  lemma ExtendOnce(t: Tiling, w: seq<byte>, d: seq<byte>)
    requires t.Valid() && TileSlices(t, w) && d != [] && IsSlice(w, t.n, d)
    ensures var t' := Tiling(t.tiles[t.n := d], t.n + |d|);
            t'.Valid() && TileSlices(t', w) && Grows(t, t') && t.n !in t.tiles
  {
    ExtendTiling(t, d);
  }

  lemma SliceParts(w: seq<byte>, o: nat, a: seq<byte>, b: seq<byte>)
    requires IsSlice(w, o, a + b)
    ensures IsSlice(w, o, a) && IsSlice(w, o + |a|, b)
  {
    assert w[o..o + |a|] == (a + b)[..|a|];
    assert w[o + |a|..o + |a| + |b|] == (a + b)[|a|..];
  }

  /** Frames that follow the stream so far and carry its next bytes. */
  ghost predicate Follow(t: Tiling, w: seq<byte>, fs: seq<Frame>, id: nat, end: nat) {
    && t.Valid() && TileSlices(t, w) && NonEmptyFrames(fs) && NoFin(fs)
    && Consecutive(fs, id, t.n, end) && StreamFrames(fs) && IsSlice(w, t.n, Payload(fs))
  }

  lemma FollowStep(t: Tiling, w: seq<byte>, fs: seq<Frame>, id: nat, end: nat)
    requires Follow(t, w, fs, id, end) && fs != []
    ensures var t1 := Tiling(t.tiles[t.n := fs[0].data], t.n + |fs[0].data|);
            && t.n !in t.tiles && Grows(t, t1) && fs[0].streamId == id && fs[0].offset == t.n
            && Follow(t1, w, fs[1..], id, end)
            && Extend(t, fs) == Extend(t1, fs[1..])
  {
    SliceParts(w, t.n, fs[0].data, Payload(fs[1..]));
    ExtendOnce(t, w, fs[0].data);
  }

  lemma {:induction false} ExtendGrows(t: Tiling, w: seq<byte>, fs: seq<Frame>, id: nat, end: nat)
    requires Follow(t, w, fs, id, end)
    ensures var t' := Extend(t, fs);
            t'.Valid() && TileSlices(t', w) && t'.n == end && Extended(t, t', fs, id)
    decreases |fs|
  {
    if fs != [] {
      var t1 := Tiling(t.tiles[t.n := fs[0].data], t.n + |fs[0].data|);
      FollowStep(t, w, fs, id, end);
      ExtendGrows(t1, w, fs[1..], id, end);
      TilesOfRest(t, t1, Extend(t, fs), fs, id);
    }
  }

  lemma TilesOfRest(t: Tiling, t1: Tiling, t': Tiling, fs: seq<Frame>, id: nat)
    requires NoFin(fs) && fs != [] && fs[0].streamId == id && fs[0].offset == t.n
    requires t1 == Tiling(t.tiles[t.n := fs[0].data], t.n + |fs[0].data|)
    requires t.n !in t.tiles && Grows(t, t1) && Extended(t1, t', fs[1..], id)
    ensures Extended(t, t', fs, id)
  {
    assert HasTile(t', fs[0]) by {
      assert t.n in t1.tiles;
    }
    forall i | 0 <= i < |fs|
      ensures HasTile(t', fs[i]) && fs[i].streamId == id && t.n <= fs[i].offset
    {
      if i > 0 {
        assert fs[i] == fs[1..][i - 1];
      }
    }
    forall o | o in t'.tiles && o !in t.tiles
      ensures exists i :: 0 <= i < |fs| && fs[i].offset == o
    {
      if o in t1.tiles {
        assert fs[0].offset == o;
      } else {
        var i :| 0 <= i < |fs[1..]| && fs[1..][i].offset == o;
        assert fs[i + 1].offset == o;
      }
    }
  }

  /** The stream after its frames were popped. */
  lemma PoppedStreamOk(id: nat, send: Send, w: seq<byte>, t: Tiling, max: nat)
    requires StreamOk(send, w, t)
    ensures var (fs, send') := Popped(id, send, max);
            StreamFrames(fs) && NoFin(fs) && StreamOk(send', w, Extend(t, fs)) && Extended(t, Extend(t, fs), fs, id)
  {
    var (fs, send') := Popped(id, send, max);
    hide Popped, Extend, Consecutive, Extended, Segments;
    PopFramesSegments(id, send, max);
    PoppedNoFin(id, send, max);
    PrefixSlice(w, send.base, Payload(fs), send'.Buffered());
    ExtendGrows(t, w, fs, id, send'.base);
  }

  lemma PoppedNoFin(id: nat, send: Send, max: nat)
    ensures NoFin(Popped(id, send, max).0)
  {
    PopLoopNoFin(id, send.base, send.chunks, max);
  }

  lemma PrefixSlice(w: seq<byte>, base: nat, a: seq<byte>, b: seq<byte>)
    requires base <= |w| && w[base..] == a + b
    ensures IsSlice(w, base, a) && w[base + |a|..] == b
  {
    assert w[base..base + |a|] == (a + b)[..|a|];
    assert w[base + |a|..] == (a + b)[|a|..];
  }

  // ----- Taking frames from the send stream -----

  lemma TakenStreams(send: map<nat, Send>, written: map<nat, seq<byte>>, tiles: map<nat, Tiling>, st: nat,
                     send': Send, t': Tiling)
    requires StreamsOk(send, written, tiles) && st in send && StreamOk(send', written[st], t')
    ensures StreamsOk(send[st := send'], written, tiles[st := t'])
  {
    SameKeys(send, st, send');
    SameKeys(tiles, st, t');
  }

  lemma TakenFrames(packets: map<PacketId, seq<Frame>>, tiles: map<nat, Tiling>, st: nat, t': Tiling)
    requires FramesOk(packets, tiles) && st in tiles && Grows(tiles[st], t')
    ensures FramesOk(packets, tiles[st := t'])
  {
    forall id, i | id in packets && 0 <= i < |packets[id]|
      ensures FrameOk(tiles[st := t'], packets[id][i])
    {
      assert FrameOk(tiles, packets[id][i]);
    }
  }

  lemma TakenFlow(r: Recv, delivered: seq<byte>, w: seq<byte>, t: Tiling, t': Tiling)
    requires FlowOk(r, delivered, w, t) && Grows(t, t')
    ensures FlowOk(r, delivered, w, t')
  {
  }

  lemma TakenFlows(recv: map<nat, Recv>, delivered: map<nat, seq<byte>>, written: map<nat, seq<byte>>,
                   tiles: map<nat, Tiling>, st: nat, t': Tiling)
    requires FlowsOk(recv, delivered, written, tiles) && st in tiles && Grows(tiles[st], t')
    ensures FlowsOk(recv, delivered, written, tiles[st := t'])
  {
    forall s | s in recv
      ensures FlowOk(recv[s], At(delivered, s), At(written, s), TilesAt(tiles[st := t'], s))
    {
      assert FlowOk(recv[s], At(delivered, s), At(written, s), TilesAt(tiles, s));
      if s == st {
        TakenFlow(recv[s], At(delivered, s), At(written, s), tiles[st], t');
      }
    }
  }

  lemma TakenLost(lost: set<(nat, nat)>, tiles: map<nat, Tiling>, st: nat, t': Tiling)
    requires LostOk(lost, tiles) && st in tiles && Grows(tiles[st], t')
    ensures LostOk(lost, tiles[st := t'])
  {
  }

  /** The frames have left the send stream; until they are recorded they count as lost. */
  function TakenFrom(x: Endpoint, st: nat, send': Send, t': Tiling, home': map<(nat, nat), PacketId>): Endpoint {
    x.(send := x.send[st := send'], tiles := x.tiles[st := t'], home := home', lossless := false)
  }

  lemma TakenLocal(x: Endpoint, st: nat, send': Send, t': Tiling, home': map<(nat, nat), PacketId>)
    requires Local(x) && st in x.send && StreamOk(send', x.written[st], t') && Grows(x.tiles[st], t')
    requires HomeOnly(home', x.packets)
    ensures Local(TakenFrom(x, st, send', t', home'))
  {
    TakenStreams(x.send, x.written, x.tiles, st, send', t');
    TakenFrames(x.packets, x.tiles, st, t');
    SameKeys(x.send, st, send');
  }

  /** A frame that has only now left the send stream is not held yet. */
  lemma TakenHeld(v: Variant, recv: map<nat, Recv>, delivered: map<nat, seq<byte>>, written: map<nat, seq<byte>>,
                  tiles: map<nat, Tiling>, packets: map<PacketId, seq<Frame>>, st: nat, t': Tiling)
    requires HeldOk(v, recv, tiles, packets) && FlowsOk(recv, delivered, written, tiles)
    requires st in tiles && tiles[st].Valid() && Grows(tiles[st], t')
    ensures HeldOk(v, recv, tiles[st := t'], packets)
  {
    if st in recv {
      var t := tiles[st];
      assert FlowOk(recv[st], At(delivered, st), At(written, st), TilesAt(tiles, st));
      assert forall o :: o in t.tiles ==> o < t.End(o) <= t.n;
      assert recv[st].expected <= t.n;
      assert forall o :: o in t'.tiles && o !in t.tiles ==> !Held(recv[st], o);
    }
  }

  lemma TakenOut(v: Variant, x: Endpoint, y: Endpoint, st: nat, send': Send, t': Tiling,
                 home': map<(nat, nat), PacketId>)
    requires Link(v, x, y) && st in x.tiles && x.tiles[st].Valid() && Grows(x.tiles[st], t')
    ensures Link(v, TakenFrom(x, st, send', t', home'), y)
  {
    TakenFlows(y.recv, y.delivered, x.written, x.tiles, st, t');
    TakenLost(y.lost, x.tiles, st, t');
    TakenHeld(v, y.recv, y.delivered, x.written, x.tiles, x.packets, st, t');
  }

  lemma TakenKept(v: Variant, x: Endpoint, y: Endpoint, st: nat, send': Send, t': Tiling,
                  home': map<(nat, nat), PacketId>)
    requires Before(v, x, y) && st in x.send && st in x.written && st in x.tiles && x.tiles[st].Valid()
    requires StreamOk(send', x.written[st], t') && Grows(x.tiles[st], t') && HomeOnly(home', x.packets)
    ensures Before(v, TakenFrom(x, st, send', t', home'), y)
  {
    hide Balanced, TableOk, StreamsOk, FramesOk, AckFramesOk, ReceivedOk, JobOk, HomeOk, FlowsOk, AckedOk, HandledOk,
      HeldOk;
    TakenLocal(x, st, send', t', home');
    TakenOut(v, x, y, st, send', t', home');
  }

  // ----- Recording them -----

  lemma StreamOutcome(s: State, p: PathId, id: nat, send: Send, now: nat, err: WriteError)
    requires QueuesEmpty(s) && StreamFrames(Popped(id, send, s.maxPacketSize).0)
    ensures var fs := Popped(id, send, s.maxPacketSize).0;
            var (s', _, r) := SubmitFromSendStream(s, p, id, send, now, err);
            && Outcome(s, s', r)
            && (r.Submitted? ==> r.id.path == p && s'.pending[r.id].frames <= fs)
  {
    var fs := Popped(id, send, s.maxPacketSize).0;
    if fs != [] {
      FitExactly(s.maxPacketSize, fs, 0);
      var taken := Fit(s.maxPacketSize, fs, 0);
      if taken.Some? && taken.value != [] {
        RecordOutcome(s, p, taken.value, id, now, err);
        var (s1, r) := Record(s, p, taken.value, id, now, err);
        var s' := SubmitFromSendStream(s, p, id, send, now, err).0;
        assert s'.queues == s1.queues && s'.nextSeq == s1.nextSeq && s'.pending == s1.pending;
        assert forall q :: s'.Queue(q) == s1.Queue(q);
        assert forall q :: Assigned(s', q) == Assigned(s1, q);
      }
    }
  }

  lemma StreamFramesNew(tiles: map<nat, Tiling>, recorded: set<PacketId>, home: map<(nat, nat), PacketId>,
                        id: PacketId, st: nat, fs: seq<Frame>, taken: seq<Frame>)
    requires st in tiles && taken <= fs && NoFin(fs) && StreamFrames(fs)
    requires forall i :: 0 <= i < |fs| ==> HasTile(tiles[st], fs[i]) && fs[i].streamId == st
    ensures NewFramesOk(tiles, recorded, home + Homes(st, fs, id), id, taken)
  {
    forall i | 0 <= i < |taken|
      ensures FrameOk(tiles, taken[i]) && HasHome(home + Homes(st, fs, id), taken[i], id)
    {
      assert taken[i] == fs[i];
      assert (st, fs[i].offset) in Homes(st, fs, id);
    }
  }

  /** Frames recorded earlier keep their packets. */
  lemma OldHomesStay(tiles: map<nat, Tiling>, home: map<(nat, nat), PacketId>, packets: map<PacketId, seq<Frame>>,
                     st: nat, fs: seq<Frame>, r: SubmitResult)
    requires HomeOnly(home, packets) && FramesOk(packets, tiles) && st in tiles && tiles[st].Valid()
    requires StreamFrames(fs) && forall i :: 0 <= i < |fs| ==> tiles[st].n <= fs[i].offset
    ensures HomeOnly(WithHomes(home, st, fs, r), packets)
  {
    if r.Submitted? {
      forall id, i | id in packets && 0 <= i < |packets[id]|
        ensures HasHome(WithHomes(home, st, fs, r), packets[id][i], id)
      {
        var f := packets[id][i];
        assert HasHome(home, f, id) && FrameOk(tiles, f);
        if f.Stream? {
          OldHome(tiles, f.streamId, f.offset, fs, st, r.id);
        }
      }
    }
  }

  /** When all frames were recorded, each has its packet; the frames before them keep theirs. */
  lemma HomesOk(tiles: map<nat, Tiling>, home: map<(nat, nat), PacketId>, packets: map<PacketId, seq<Frame>>,
                st: nat, t': Tiling, fs: seq<Frame>, id: PacketId)
    requires HomeOk(true, tiles, home, packets) && id !in packets && st in tiles && tiles[st].Valid()
    requires NoFin(fs) && StreamFrames(fs) && Extended(tiles[st], t', fs, st)
    ensures HomeOk(true, tiles[st := t'], home + Homes(st, fs, id), packets[id := fs])
  {
    var tiles', home', packets' := tiles[st := t'], home + Homes(st, fs, id), packets[id := fs];
    forall s, o | s in tiles' && o in tiles'[s].tiles
      ensures (s, o) in home' && home'[(s, o)] in packets'
      ensures Stream(s, o, false, tiles'[s].tiles[o]) in packets'[home'[(s, o)]]
    {
      if s == st && o !in tiles[st].tiles {
        NewHome(t', fs, st, o, id);
      } else {
        assert Stream(s, o, false, tiles[s].tiles[o]) in packets[home[(s, o)]];
        OldHome(tiles, s, o, fs, st, id);
      }
    }
  }

  lemma NewHome(t': Tiling, fs: seq<Frame>, st: nat, o: nat, id: PacketId)
    requires NoFin(fs) && StreamFrames(fs) && o in t'.tiles
    requires forall i :: 0 <= i < |fs| ==> HasTile(t', fs[i]) && fs[i].streamId == st
    requires exists i :: 0 <= i < |fs| && fs[i].offset == o
    ensures (st, o) in Homes(st, fs, id) && Homes(st, fs, id)[(st, o)] == id
    ensures Stream(st, o, false, t'.tiles[o]) in fs
  {
    var i :| 0 <= i < |fs| && fs[i].offset == o;
    assert HasTile(t', fs[i]);
    assert fs[i] == Stream(st, o, false, t'.tiles[o]);
  }

  lemma OldHome(tiles: map<nat, Tiling>, s: nat, o: nat, fs: seq<Frame>, st: nat, id: PacketId)
    requires StreamFrames(fs) && st in tiles && tiles[st].Valid() && s in tiles && o in tiles[s].tiles
    requires forall i :: 0 <= i < |fs| ==> tiles[st].n <= fs[i].offset
    ensures (s, o) !in Homes(st, fs, id)
  {
    if s == st {
      assert o < tiles[st].End(o) <= tiles[st].n;
    }
  }

  lemma SubmittedHome(x: Endpoint, st: nat, fs: seq<Frame>, s': State, r: SubmitResult)
    requires HomeOk(x.lossless, x.tiles, x.home, x.packets) && st in x.tiles && x.tiles[st].Valid()
    requires NoFin(fs) && StreamFrames(fs) && Extended(x.tiles[st], Extend(x.tiles[st], fs), fs, st)
    requires r.Submitted? ==> r.id !in x.packets
    requires fs == [] ==> !r.Submitted?
    ensures HomeOk(x.lossless && (fs == [] || AllRecorded(s', r, fs)), x.tiles[st := Extend(x.tiles[st], fs)],
                   WithHomes(x.home, st, fs, r), WithPacket(x.packets, s', r))
  {
    if x.lossless {
      if fs == [] {
        assert x.tiles[st := x.tiles[st]] == x.tiles;
      } else if AllRecorded(s', r, fs) {
        HomesOk(x.tiles, x.home, x.packets, st, Extend(x.tiles[st], fs), fs, r.id);
      }
    }
  }

  lemma FreshId(s: State, s': State, r: SubmitResult, packets: map<PacketId, seq<Frame>>, net: set<PacketId>,
                tasks: set<PacketId>, fates: map<PacketId, Fate>)
    requires TableOk(s, packets, net, tasks, fates)
    ensures QueuesEmpty(s)
    ensures Outcome(s, s', r) && r.Submitted? ==> r.id !in packets
  {
  }

  /** What a submission from the send stream `st` took, left and recorded. */
  ghost predicate Submission(x: Endpoint, st: nat, fs: seq<Frame>, send': Send, s': State, r: SubmitResult)
    requires st in x.written && st in x.tiles
  {
    && StreamFrames(fs) && NoFin(fs)
    && StreamOk(send', x.written[st], Extend(x.tiles[st], fs))
    && Extended(x.tiles[st], Extend(x.tiles[st], fs), fs, st)
    && Outcome(x.packer, s', r)
    && Balanced(s', AccountSubmit(x.ledger, r))
    && (r.Submitted? ==> fs != [] && s'.pending[r.id].frames <= fs)
  }

  lemma SubmissionHolds(x: Endpoint, p: PathId, st: nat, now: nat, err: WriteError)
    requires st in x.send && st in x.written && st in x.tiles && StreamOk(x.send[st], x.written[st], x.tiles[st])
    requires QueuesEmpty(x.packer) && Balanced(x.packer, x.ledger)
    ensures var fs := Popped(st, x.send[st], x.packer.maxPacketSize).0;
            var (s', send', r) := SubmitFromSendStream(x.packer, p, st, x.send[st], now, err);
            Submission(x, st, fs, send', s', r)
  {
    PoppedStreamOk(st, x.send[st], x.written[st], x.tiles[st], x.packer.maxPacketSize);
    StreamOutcome(x.packer, p, st, x.send[st], now, err);
    SubmitStreamBalanced(x.packer, x.ledger, p, st, x.send[st], now, err);
  }

  lemma SubmissionFrames(x: Endpoint, st: nat, fs: seq<Frame>, send': Send, s': State, r: SubmitResult)
    requires st in x.written && st in x.tiles && Submission(x, st, fs, send', s', r)
    ensures r.Submitted? ==>
              NewFramesOk(x.tiles[st := Extend(x.tiles[st], fs)], x.recorded, WithHomes(x.home, st, fs, r), r.id,
                          s'.pending[r.id].frames)
  {
    if r.Submitted? {
      StreamFramesNew(x.tiles[st := Extend(x.tiles[st], fs)], x.recorded, x.home, r.id, st, fs,
                      s'.pending[r.id].frames);
    }
  }

  /** Everything about the endpoint but whether anything was lost. */
  lemma SubmissionBase(v: Variant, x: Endpoint, y: Endpoint, st: nat, fs: seq<Frame>, send': Send, s': State,
                       r: SubmitResult)
    requires Before(v, x, y) && st in x.send && st in x.written && st in x.tiles && x.tiles[st].Valid()
    requires Submission(x, st, fs, send', s', r)
    ensures Kept(v, Outgoing(TakenFrom(x, st, send', Extend(x.tiles[st], fs), WithHomes(x.home, st, fs, r)), s', r), y)
  {
    hide Balanced, TableOk, StreamsOk, AckFramesOk, ReceivedOk, JobOk, HomeOk, FlowsOk, AckedOk, HandledOk, HeldOk,
      Outcome, StreamOk;
    OldHomesStay(x.tiles, x.home, x.packets, st, fs, r);
    TakenKept(v, x, y, st, send', Extend(x.tiles[st], fs), WithHomes(x.home, st, fs, r));
    SubmissionFrames(x, st, fs, send', s', r);
    OutgoingKept(v, TakenFrom(x, st, send', Extend(x.tiles[st], fs), WithHomes(x.home, st, fs, r)), y, s', r);
  }

  lemma WithLoss(v: Variant, x: Endpoint, y: Endpoint, lossless: bool)
    requires Kept(v, x, y) && HomeOk(lossless, x.tiles, x.home, x.packets)
    ensures Kept(v, x.(lossless := lossless), y)
  {
  }

  lemma SubmissionHome(x: Endpoint, st: nat, fs: seq<Frame>, send': Send, s': State, r: SubmitResult)
    requires TableOk(x.packer, x.packets, x.net, x.tasks, x.ledger.fates)
    requires HomeOk(x.lossless, x.tiles, x.home, x.packets)
    requires st in x.written && st in x.tiles && x.tiles[st].Valid() && Submission(x, st, fs, send', s', r)
    ensures HomeOk(x.lossless && (fs == [] || AllRecorded(s', r, fs)), x.tiles[st := Extend(x.tiles[st], fs)],
                   WithHomes(x.home, st, fs, r), WithPacket(x.packets, s', r))
  {
    FreshId(x.packer, s', r, x.packets, x.net, x.tasks, x.ledger.fates);
    SubmittedHome(x, st, fs, s', r);
  }

  lemma SubmissionKept(v: Variant, x: Endpoint, y: Endpoint, st: nat, fs: seq<Frame>, send': Send, s': State,
                       r: SubmitResult)
    requires Before(v, x, y) && st in x.send && st in x.written && st in x.tiles && x.tiles[st].Valid()
    requires Submission(x, st, fs, send', s', r)
    ensures Kept(v, Outgoing(TakenFrom(x, st, send', Extend(x.tiles[st], fs), WithHomes(x.home, st, fs, r)), s', r).(
                   lossless := x.lossless && (fs == [] || AllRecorded(s', r, fs))), y)
  {
    hide Balanced, StreamsOk, FramesOk, AckFramesOk, ReceivedOk, JobOk, FlowsOk, AckedOk, HandledOk, Extended, Outcome,
      StreamOk, AllRecorded;
    SubmissionBase(v, x, y, st, fs, send', s', r);
    SubmissionHome(x, st, fs, send', s', r);
    WithLoss(v, Outgoing(TakenFrom(x, st, send', Extend(x.tiles[st], fs), WithHomes(x.home, st, fs, r)), s', r), y,
             x.lossless && (fs == [] || AllRecorded(s', r, fs)));
  }

  lemma StreamPresent(x: Endpoint, st: nat)
    requires Local(x) && st in x.send
    ensures st in x.written && st in x.tiles && StreamOk(x.send[st], x.written[st], x.tiles[st])
    ensures QueuesEmpty(x.packer) && Balanced(x.packer, x.ledger)
  {
  }

  lemma SubmitKept(v: Variant, x: Endpoint, y: Endpoint, p: PathId, st: nat, now: nat, err: WriteError)
    requires Before(v, x, y) && st in x.send && st in x.tiles
    ensures Kept(v, SubmitStream(x, p, st, now, err), y)
  {
    hide Local, Link, Submission, SubmitFromSendStream, Popped, Balanced, QueuesEmpty;
    StreamPresent(x, st);
    var fs := Popped(st, x.send[st], x.packer.maxPacketSize).0;
    var (s', send', r) := SubmitFromSendStream(x.packer, p, st, x.send[st], now, err);
    SubmissionHolds(x, p, st, now, err);
    SubmissionKept(v, x, y, st, fs, send', s', r);
  }
}
