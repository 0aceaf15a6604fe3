/** Submitting a packet keeps the invariant. */
module ConnectionSubmissions {
  import opened AckRanges
  import opened Common
  import opened Connection
  import opened ConnectionInvariant
  import opened Frames
  import opened Packers
  import opened PackerRuns
  import opened RecvStreams
  import Packets

  // ----- One more packet -----

  ghost predicate NewFramesOk(tiles: map<nat, Tiling>, recorded: set<PacketId>, home: map<(nat, nat), PacketId>,
                              id: PacketId, fs: seq<Frame>)
  {
    forall i :: 0 <= i < |fs| ==>
                  FrameOk(tiles, fs[i]) && AckFrameOk(id.path, fs[i], recorded) && HasHome(home, fs[i], id)
  }

  lemma FramesOkAdd(packets: map<PacketId, seq<Frame>>, tiles: map<nat, Tiling>, recorded: set<PacketId>,
                    home: map<(nat, nat), PacketId>, id: PacketId, fs: seq<Frame>)
    requires FramesOk(packets, tiles) && AckFramesOk(packets, recorded) && HomeOnly(home, packets)
    requires NewFramesOk(tiles, recorded, home, id, fs)
    ensures FramesOk(packets[id := fs], tiles) && AckFramesOk(packets[id := fs], recorded)
    ensures HomeOnly(home, packets[id := fs])
  {
  }

  lemma AckSentAdd(packets: map<PacketId, seq<Frame>>, id: PacketId, fs: seq<Frame>, q: PacketId)
    requires AckSent(packets, q) && id !in packets
    ensures AckSent(packets[id := fs], q)
  {
    var a, i :| a in packets && 0 <= i < |packets[a]| && Acknowledges(a.path, packets[a][i], q);
    assert packets[id := fs][a] == packets[a];
  }

  lemma ReceivedOkAdd(received: map<PathId, set<nat>>, recorded: set<PacketId>, packets: map<PacketId, seq<Frame>>,
                      id: PacketId, fs: seq<Frame>)
    requires ReceivedOk(received, recorded, packets) && id !in packets
    ensures ReceivedOk(received, recorded, packets[id := fs])
  {
    forall q | q in recorded && AckSent(packets, q)
      ensures AckSent(packets[id := fs], q)
    {
      AckSentAdd(packets, id, fs, q);
    }
  }

  lemma JobOkAdd(job: Option<AckJob>, recorded: set<PacketId>, packets: map<PacketId, seq<Frame>>, id: PacketId,
                 fs: seq<Frame>)
    requires JobOk(job, recorded, packets) && id !in packets
    ensures JobOk(job, recorded, packets[id := fs])
  {
    if job.Some? {
      forall n: nat | Covers(job.value.ranges, n) && job.value.submitted
        ensures AckSent(packets[id := fs], PacketId(job.value.path, n))
      {
        AckSentAdd(packets, id, fs, PacketId(job.value.path, n));
      }
    }
  }

  lemma HomeOkAdd(lossless: bool, tiles: map<nat, Tiling>, home: map<(nat, nat), PacketId>,
                  packets: map<PacketId, seq<Frame>>, id: PacketId, fs: seq<Frame>)
    requires HomeOk(lossless, tiles, home, packets) && id !in packets
    ensures HomeOk(lossless, tiles, home, packets[id := fs])
  {
  }

  lemma HandledOkAdd(v: Variant, recv: map<nat, Recv>, lost: set<(nat, nat)>, recorded: set<PacketId>,
                     processing: map<PathId, (PacketId, nat)>, packets: map<PacketId, seq<Frame>>, id: PacketId,
                     fs: seq<Frame>)
    requires HandledOk(v, recv, lost, recorded, processing, packets) && id !in recorded
    ensures HandledOk(v, recv, lost, recorded, processing, packets[id := fs])
  {
    var packets' := packets[id := fs];
    forall q, k | q in recorded && q in packets' && 0 <= k < Done(processing, q, |Packets.Received(v, packets'[q])|)
      ensures Accounted(recv, lost, Packets.Received(v, packets'[q])[k])
    {
      assert packets'[q] == packets[q];
      assert Accounted(recv, lost, Packets.Received(v, packets[q])[k]);
    }
  }

  lemma HeldOkAdd(v: Variant, recv: map<nat, Recv>, tiles: map<nat, Tiling>, packets: map<PacketId, seq<Frame>>,
                  id: PacketId, fs: seq<Frame>)
    requires HeldOk(v, recv, tiles, packets) && id !in packets
    ensures HeldOk(v, recv, tiles, packets[id := fs])
  {
    forall st, o | st in recv && st in tiles && o in tiles[st].tiles && Held(recv[st], o)
      ensures Readable(v, packets[id := fs], st, o)
    {
      ReadableAdd(v, packets, id, fs, st, o);
    }
  }

  lemma ReadableAdd(v: Variant, packets: map<PacketId, seq<Frame>>, id: PacketId, fs: seq<Frame>, st: nat, o: nat)
    requires Readable(v, packets, st, o) && id !in packets
    ensures Readable(v, packets[id := fs], st, o)
  {
    var q, k :| q in packets && 0 <= k < |Packets.Received(v, packets[q])|
                && IsFrame(Packets.Received(v, packets[q])[k], st, o);
    assert packets[id := fs][q] == packets[q];
  }

  // ----- The outcome of a submission -----

  ghost predicate QueuesEmpty(s: State) {
    forall p :: s.Queue(p) == []
  }

  /** A submission hands out at most one number and leaves every other packet alone. */
  ghost predicate Outcome(s: State, s': State, r: SubmitResult) {
    && QueuesEmpty(s')
    && (forall id :: Assigned(s, id) ==> Assigned(s', id))
    && (r.Submitted? || r.Rejected? ==> !Assigned(s, r.id) && Assigned(s', r.id))
    && if r.Submitted? then r.id in s'.pending && s'.pending == s.pending[r.id := s'.pending[r.id]]
       else s'.pending == s.pending
  }

  lemma RecordOutcome(s: State, p: PathId, fs: seq<Frame>, carrier: nat, now: nat, err: WriteError)
    requires QueuesEmpty(s)
    ensures var (s', r) := Record(s, p, fs, carrier, now, err);
            Outcome(s, s', r) && (r.Submitted? ==> r.id.path == p && s'.pending[r.id].frames == fs)
  {
    var s' := Record(s, p, fs, carrier, now, err).0;
    assert forall q :: s'.Queue(q) == s.Queue(q);
  }

  lemma SubmitFrameOutcome(s: State, p: PathId, f: Frame, now: nat, err: WriteError)
    requires QueuesEmpty(s) && !f.Stream?
    ensures var (s', r) := SubmitFrame(s, p, f, 0, now, err);
            Outcome(s, s', r) && (r.Submitted? ==> r.id.path == p && s'.pending[r.id].frames == [f])
  {
    assert s.Queue(p) + [f] == [f];
    var emptied := s.(queues := s.queues[p := []]);
    assert forall q :: emptied.Queue(q) == s.Queue(q);
    assert forall id :: Assigned(emptied, id) == Assigned(s, id);
    RecordOutcome(emptied, p, [f], 0, now, err);
  }

  /** The numbers that have a fate were handed out. */
  ghost predicate FatesAssigned(s: State, fates: map<PacketId, Fate>) {
    forall id :: id in fates ==> Assigned(s, id)
  }

  lemma BalancedAssigned(s: State, l: Ledger)
    requires Balanced(s, l)
    ensures FatesAssigned(s, l.fates)
  {
    forall id | id in l.fates
      ensures Assigned(s, id)
    {
      assert Known(s, l, id);
    }
  }

  lemma OutcomeTable(s: State, s': State, l: Ledger, r: SubmitResult, packets: map<PacketId, seq<Frame>>,
                     net: set<PacketId>, tasks: set<PacketId>)
    requires TableOk(s, packets, net, tasks, l.fates) && Outcome(s, s', r) && FatesAssigned(s, l.fates)
    ensures r.Submitted? ==> r.id !in packets && r.id !in net
    ensures TableOk(s', WithPacket(packets, s', r), WithWrite(net, r), tasks, AccountSubmit(l, r).fates)
  {
    if r.Submitted? {
      var packets' := packets[r.id := s'.pending[r.id].frames];
      assert packets'.Keys == packets.Keys + {r.id};
    }
  }

  lemma OutcomeAcked(l: Ledger, r: SubmitResult, recorded: set<PacketId>)
    requires AckedOk(l.fates, recorded)
    ensures AckedOk(AccountSubmit(l, r).fates, recorded)
  {
  }

  lemma OutcomeLocal(x: Endpoint, s': State, r: SubmitResult)
    requires FramesOk(x.packets, x.tiles) && AckFramesOk(x.packets, x.recorded)
    requires ReceivedOk(x.received, x.recorded, x.packets) && JobOk(x.job, x.recorded, x.packets)
    requires HomeOk(x.lossless, x.tiles, x.home, x.packets) && HomeOnly(x.home, x.packets)
    requires r.Submitted? ==>
               r.id !in x.packets && r.id in s'.pending
               && NewFramesOk(x.tiles, x.recorded, x.home, r.id, s'.pending[r.id].frames)
    ensures var packets' := WithPacket(x.packets, s', r);
            && FramesOk(packets', x.tiles) && AckFramesOk(packets', x.recorded)
            && ReceivedOk(x.received, x.recorded, packets') && JobOk(x.job, x.recorded, packets')
            && HomeOk(x.lossless, x.tiles, x.home, packets') && HomeOnly(x.home, packets')
  {
    if r.Submitted? {
      var fs := s'.pending[r.id].frames;
      FramesOkAdd(x.packets, x.tiles, x.recorded, x.home, r.id, fs);
      ReceivedOkAdd(x.received, x.recorded, x.packets, r.id, fs);
      JobOkAdd(x.job, x.recorded, x.packets, r.id, fs);
      HomeOkAdd(x.lossless, x.tiles, x.home, x.packets, r.id, fs);
    }
  }

  lemma OutgoingLocal(x: Endpoint, s': State, r: SubmitResult)
    requires Local(x) && Outcome(x.packer, s', r) && Balanced(s', AccountSubmit(x.ledger, r))
    requires r.Submitted? ==> NewFramesOk(x.tiles, x.recorded, x.home, r.id, s'.pending[r.id].frames)
    ensures Local(Outgoing(x, s', r)) && (r.Submitted? ==> r.id !in x.net && r.id !in x.packets)
  {
    BalancedAssigned(x.packer, x.ledger);
    OutcomeTable(x.packer, s', x.ledger, r, x.packets, x.net, x.tasks);
    OutcomeLocal(x, s', r);
  }

  lemma OutgoingOut(v: Variant, x: Endpoint, y: Endpoint, s': State, r: SubmitResult)
    requires Link(v, x, y) && (r.Submitted? ==> r.id !in x.net && r.id !in x.packets)
    ensures Link(v, Outgoing(x, s', r), y)
  {
    OutcomeAcked(x.ledger, r, y.recorded);
    OutcomeHandled(v, x, y, s', r);
    OutcomeHeld(v, x, y, s', r);
  }

  lemma OutcomeHeld(v: Variant, x: Endpoint, y: Endpoint, s': State, r: SubmitResult)
    requires HeldOk(v, y.recv, x.tiles, x.packets) && (r.Submitted? ==> r.id !in x.packets)
    ensures HeldOk(v, y.recv, x.tiles, WithPacket(x.packets, s', r))
  {
    if r.Submitted? && r.id in s'.pending {
      HeldOkAdd(v, y.recv, x.tiles, x.packets, r.id, s'.pending[r.id].frames);
    }
  }

  lemma OutcomeHandled(v: Variant, x: Endpoint, y: Endpoint, s': State, r: SubmitResult)
    requires y.recorded <= x.net && (r.Submitted? ==> r.id !in x.net)
    requires HandledOk(v, y.recv, y.lost, y.recorded, y.processing, x.packets)
    ensures HandledOk(v, y.recv, y.lost, y.recorded, y.processing, WithPacket(x.packets, s', r))
    ensures y.recorded <= WithWrite(x.net, r)
  {
    if r.Submitted? && r.id in s'.pending {
      HandledOkAdd(v, y.recv, y.lost, y.recorded, y.processing, x.packets, r.id,
                   s'.pending[r.id].frames);
    }
  }

  lemma OutgoingKept(v: Variant, x: Endpoint, y: Endpoint, s': State, r: SubmitResult)
    requires Before(v, x, y) && Outcome(x.packer, s', r) && Balanced(s', AccountSubmit(x.ledger, r))
    requires r.Submitted? ==> NewFramesOk(x.tiles, x.recorded, x.home, r.id, s'.pending[r.id].frames)
    ensures Kept(v, Outgoing(x, s', r), y)
  {
    OutgoingLocal(x, s', r);
    OutgoingOut(v, x, y, s', r);
  }

  lemma ControlKept(v: Variant, x: Endpoint, y: Endpoint, p: PathId, f: Frame, now: nat, err: WriteError)
    requires Before(v, x, y) && !f.Stream? && AckFrameOk(p, f, x.recorded)
    ensures Kept(v, SubmitOne(x, p, f, now, err), y)
  {
    var (s', r) := SubmitFrame(x.packer, p, f, 0, now, err);
    SubmitFrameOutcome(x.packer, p, f, now, err);
    SubmitFrameBalanced(x.packer, x.ledger, p, f, 0, now, err);
    OutgoingKept(v, x, y, s', r);
  }
}
