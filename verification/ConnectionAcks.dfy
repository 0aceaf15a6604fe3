/** Acknowledging packets keeps the invariant. */
module ConnectionAcks {
  import opened AckRanges
  import opened Common
  import opened Connection
  import opened ConnectionInvariant
  import opened ConnectionSubmissions
  import opened Frames
  import opened Packers
  import opened PackerRuns
  import opened RecvStreams
  import Packets

  // ----- The ACK worker -----

  lemma JobKept(v: Variant, x: Endpoint, y: Endpoint, job: Option<AckJob>)
    requires Kept(v, x, y) && JobOk(job, x.recorded, x.packets)
    ensures Kept(v, x.(job := job), y)
  {
  }

  lemma SnapshotOk(received: map<PathId, set<nat>>, recorded: set<PacketId>, packets: map<PacketId, seq<Frame>>,
                   p: PathId, ranges: seq<AckRange>)
    requires ReceivedOk(received, recorded, packets) && p in received && Describes(ranges, received[p])
    ensures JobOk(Some(AckJob(p, ranges, false)), recorded, packets)
  {
    forall n: nat | Covers(ranges, n)
      ensures PacketId(p, n) in recorded
    {
      assert ToAck(received, PacketId(p, n));
    }
  }

  lemma AckSnapshotKept(v: Variant, x: Endpoint, y: Endpoint, p: PathId, ranges: seq<AckRange>)
    requires Before(v, x, y) && p in x.received && Describes(ranges, x.received[p])
    ensures Kept(v, x.(job := Some(AckJob(p, ranges, false))), y)
  {
    SnapshotOk(x.received, x.recorded, x.packets, p, ranges);
    JobKept(v, x, y, Some(AckJob(p, ranges, false)));
  }

  /** Once the ACK frame is in a recorded packet, everything in the ranges has an ACK on the way. */
  lemma SubmittedJobOk(job: AckJob, recorded: set<PacketId>, packets: map<PacketId, seq<Frame>>, id: PacketId)
    requires JobOk(Some(job), recorded, packets) && job.ranges != []
    requires id in packets && id.path == job.path && packets[id] == [AckFrame(job)]
    ensures JobOk(Some(job.(submitted := true)), recorded, packets)
  {
    forall n: nat | Covers(job.ranges, n)
      ensures AckSent(packets, PacketId(job.path, n))
    {
      assert Acknowledges(id.path, packets[id][0], PacketId(job.path, n));
    }
  }

  lemma JobFrameOk(job: AckJob, recorded: set<PacketId>, packets: map<PacketId, seq<Frame>>)
    requires JobOk(Some(job), recorded, packets) && job.ranges != []
    ensures AckFrameOk(job.path, AckFrame(job), recorded)
  {
  }

  lemma SubmitFrameRecords(s: State, p: PathId, f: Frame, now: nat, err: WriteError, packets: map<PacketId, seq<Frame>>)
    requires QueuesEmpty(s) && !f.Stream?
    ensures var (s', r) := SubmitFrame(s, p, f, 0, now, err);
            r.Submitted? ==>
              var packets' := WithPacket(packets, s', r);
              r.id in packets' && r.id.path == p && packets'[r.id] == [f]
  {
    SubmitFrameOutcome(s, p, f, now, err);
  }

  lemma JobOfKept(v: Variant, x: Endpoint, y: Endpoint)
    requires Kept(v, x, y)
    ensures JobOk(x.job, x.recorded, x.packets) && QueuesEmpty(x.packer)
  {
  }

  lemma AckSubmitKept(v: Variant, x: Endpoint, y: Endpoint, job: AckJob, now: nat, err: WriteError)
    requires Before(v, x, y) && x.job == Some(job) && job.ranges != []
    ensures Kept(v, AckSubmitted(x, job, now, err), y)
  {
    JobOfKept(v, x, y);
    JobFrameOk(job, x.recorded, x.packets);
    ControlKept(v, x, y, job.path, AckFrame(job), now, err);
    var x1 := SubmitOne(x, job.path, AckFrame(job), now, err);
    var r := SubmitFrame(x.packer, job.path, AckFrame(job), 0, now, err).1;
    SubmitFrameRecords(x.packer, job.path, AckFrame(job), now, err, x.packets);
    JobOfKept(v, x1, y);
    if r.Submitted? && r.err.NoError? {
      SubmittedJobOk(job, x1.recorded, x1.packets, r.id);
    }
    JobKept(v, x1, y, if r.Submitted? && r.err.NoError? then Some(job.(submitted := true)) else None);
  }

  /** The clean-up removes exactly the numbers in the ranges from those to acknowledge. */
  lemma CleanedToAck(received: map<PathId, set<nat>>, p: PathId, ranges: seq<AckRange>, id: PacketId)
    ensures ToAck(Cleaned(received, p, ranges), id)
       <==> ToAck(received, id) && !(id.path == p && Covers(ranges, id.seqNum))
  {
    if p in received {
      var left := set n | n in received[p] && !Covers(ranges, n);
      if id.path == p && id.seqNum in left {
        assert left != {};
      }
    }
  }

  lemma CleanedOk(received: map<PathId, set<nat>>, recorded: set<PacketId>, packets: map<PacketId, seq<Frame>>,
                  job: AckJob)
    requires ReceivedOk(received, recorded, packets) && JobOk(Some(job), recorded, packets) && job.submitted
    ensures ReceivedOk(Cleaned(received, job.path, job.ranges), recorded, packets)
  {
    forall id
      ensures ToAck(Cleaned(received, job.path, job.ranges), id) ==> id in recorded
      ensures id in recorded ==> ToAck(Cleaned(received, job.path, job.ranges), id) || AckSent(packets, id)
    {
      CleanedToAck(received, job.path, job.ranges, id);
      assert ToAck(received, id) ==> id in recorded;
      if id.path == job.path && Covers(job.ranges, id.seqNum) {
        assert id == PacketId(job.path, id.seqNum);
      }
    }
  }

  lemma ReceivedKept(v: Variant, x: Endpoint, y: Endpoint, received: map<PathId, set<nat>>)
    requires Before(v, x, y) && ReceivedOk(received, x.recorded, x.packets)
    ensures Kept(v, x.(received := received), y)
  {
  }

  lemma ReceivedOf(x: Endpoint)
    requires Local(x)
    ensures ReceivedOk(x.received, x.recorded, x.packets) && JobOk(x.job, x.recorded, x.packets)
  {
  }

  lemma AckCleanupKept(v: Variant, x: Endpoint, y: Endpoint, job: AckJob)
    requires Before(v, x, y) && x.job == Some(job) && job.submitted
    ensures Kept(v, CleanedUp(x, job), y)
  {
    ReceivedOf(x);
    CleanedOk(x.received, x.recorded, x.packets, job);
    ReceivedKept(v, x, y, Cleaned(x.received, job.path, job.ranges));
    JobKept(v, x.(received := Cleaned(x.received, job.path, job.ranges)), y, None);
  }

  // ----- A packet arrives -----

  lemma RecordingExactly(received: map<PathId, set<nat>>, id: PacketId, q: PacketId)
    ensures ToAck(Recording(received, id.path, id.seqNum), q) <==> ToAck(received, q) || q == id
  {
  }

  lemma ReceiveLocalOk(received: map<PathId, set<nat>>, recorded: set<PacketId>, packets: map<PacketId, seq<Frame>>,
                       id: PacketId)
    requires ReceivedOk(received, recorded, packets)
    ensures ReceivedOk(Recording(received, id.path, id.seqNum), recorded + {id}, packets)
  {
    forall q
      ensures ToAck(Recording(received, id.path, id.seqNum), q) ==> q in recorded + {id}
      ensures q in recorded + {id} ==> ToAck(Recording(received, id.path, id.seqNum), q) || AckSent(packets, q)
    {
      RecordingExactly(received, id, q);
      assert ToAck(received, q) ==> q in recorded;
    }
  }

  lemma RecordedGrows(packets: map<PacketId, seq<Frame>>, job: Option<AckJob>, fates: map<PacketId, Fate>,
                      recorded: set<PacketId>, id: PacketId)
    ensures AckFramesOk(packets, recorded) ==> AckFramesOk(packets, recorded + {id})
    ensures JobOk(job, recorded, packets) ==> JobOk(job, recorded + {id}, packets)
    ensures AckedOk(fates, recorded) ==> AckedOk(fates, recorded + {id})
  {
    if AckFramesOk(packets, recorded) {
      forall q, i | q in packets && 0 <= i < |packets[q]|
        ensures AckFrameOk(q.path, packets[q][i], recorded + {id})
      {
        assert AckFrameOk(q.path, packets[q][i], recorded);
      }
    }
  }

  lemma ReceiveReaders(processing: map<PathId, (PacketId, nat)>, recorded: set<PacketId>, id: PacketId)
    requires ReadersOk(processing, recorded)
    ensures ReadersOk(processing[id.path := (id, 0)], recorded + {id})
  {
  }

  lemma ReceiveHandled(v: Variant, recv: map<nat, Recv>, lost: set<(nat, nat)>, recorded: set<PacketId>,
                       processing: map<PathId, (PacketId, nat)>, packets: map<PacketId, seq<Frame>>, id: PacketId)
    requires HandledOk(v, recv, lost, recorded, processing, packets) && id.path !in processing
    ensures HandledOk(v, recv, lost, recorded + {id}, processing[id.path := (id, 0)], packets)
  {
    var processing' := processing[id.path := (id, 0)];
    forall q, k | q in recorded + {id} && q in packets
                  && 0 <= k < Done(processing', q, |Packets.Received(v, packets[q])|)
      ensures Accounted(recv, lost, Packets.Received(v, packets[q])[k])
    {
      assert q != id;
      assert Done(processing', q, |Packets.Received(v, packets[q])|)
          == Done(processing, q, |Packets.Received(v, packets[q])|);
    }
  }

  lemma ReceiveLocal(x: Endpoint, id: PacketId)
    requires Local(x)
    ensures Local(PacketReceived(x, id))
  {
    ReceiveLocalOk(x.received, x.recorded, x.packets, id);
    RecordedGrows(x.packets, x.job, x.ledger.fates, x.recorded, id);
  }

  lemma ReceiveIn(v: Variant, x: Endpoint, y: Endpoint, id: PacketId)
    requires Link(v, y, x) && id in y.net && id.path !in x.processing
    ensures Link(v, y, PacketReceived(x, id))
  {
    RecordedGrows(x.packets, x.job, y.ledger.fates, x.recorded, id);
    ReceiveReaders(x.processing, x.recorded, id);
    ReceiveHandled(v, x.recv, x.lost, x.recorded, x.processing, y.packets, id);
  }

  lemma ReceiveKept(v: Variant, x: Endpoint, y: Endpoint, id: PacketId)
    requires Before(v, x, y) && id in y.net && id.path !in x.processing
    ensures Kept(v, PacketReceived(x, id), y)
  {
    ReceiveLocal(x, id);
    ReceiveIn(v, x, y, id);
  }
}
