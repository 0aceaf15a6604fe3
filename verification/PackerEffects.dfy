/** What each operation of the packer does to one packet, said in the packet's own fields and numbers
    (internal/transport/packer.go). */
module PackerEffects {
  import opened AckRanges
  import opened Frames
  import opened PackerRuns
  import opened Packers

  /** A pass leaves alone what is not due, takes what is due and was tried fewer than 12 times, adding a
      try, and drops and counts the rest. */
  lemma CollectExactly(s: State, now: nat, id: PacketId)
    ensures var s', tasks := Collect(s, now), Tasks(s, now);
            && (id !in s.pending ==> id !in s'.pending && id !in tasks)
            && (id in s.pending ==>
                  var p := s.pending[id];
                  && (now < p.nextRetry ==> id !in tasks && id in s'.pending && s'.pending[id] == p)
                  && (p.nextRetry <= now && p.attempts < 12 ==>
                        id in tasks && id in s'.pending && s'.pending[id] == p.(attempts := p.attempts + 1))
                  && (p.nextRetry <= now && p.attempts >= 12 ==> id !in tasks && id !in s'.pending))
            && s'.nextSeq == s.nextSeq && s'.paths == s.paths && s'.queues == s.queues
  {
  }

  /** A written packet goes when its stream is gone or this was the twelfth try, and is put off by the
      wait otherwise; no other packet is touched. */
  lemma UpdateExactly(s: State, id: PacketId, err: WriteError, now: nat, clock: nat, other: PacketId)
    ensures var s' := Update(s, id, err, now, clock);
            && (other != id ==> (other in s'.pending <==> other in s.pending)
                                && (other in s.pending ==> s'.pending[other] == s.pending[other]))
            && (id !in s.pending ==> s' == s)
            && (id in s.pending ==>
                  var p := s.pending[id];
                  if err.StreamNotExists? || p.attempts >= 12 then id !in s'.pending
                  else id in s'.pending && s'.pending[id] == p.(nextRetry := now + Wait(p.attempts, err, clock)))
  {
  }

  /** An ACK removes the packets of its path whose number lies in one of its ranges, and counts them. */
  lemma AckExactly(s: State, p: PathId, ranges: seq<AckRange>, id: PacketId)
    ensures var s' := OnAck(s, p, ranges);
            && (id in s'.pending <==>
                  && id in s.pending
                  && !(id.path == p
                       && exists i :: 0 <= i < |ranges| && ranges[i].smallest <= id.seqNum <= ranges[i].largest))
            && (id in s'.pending ==> s'.pending[id] == s.pending[id])
            && s'.ackedCount - s.ackedCount == |s.pending| - |s'.pending|
  {
    var gone := AckedBy(s, p, ranges);
    var left := s.pending - gone;
    SetSplit(s.pending.Keys, left.Keys, gone);
    assert |left| == |left.Keys| && |s.pending| == |s.pending.Keys|;
  }

  /** Closing a stream removes the packets with a frame of it. Everything that is not a stream frame is
      listed under stream 0, so closing stream 0 removes these packets as well. */
  lemma CancelExactly(s: State, st: nat, id: PacketId)
    requires id in s.pending
    ensures var s', fs := Packers.Cancel(s, st), s.pending[id].frames;
            && (st != 0 ==>
                  (id in s'.pending <==> forall i :: 0 <= i < |fs| && fs[i].Stream? ==> fs[i].streamId != st))
            && (st == 0 ==>
                  (id in s'.pending <==> forall i :: 0 <= i < |fs| ==> fs[i].Stream? && fs[i].streamId != 0))
            && (id in s'.pending ==> s'.pending[id] == s.pending[id])
            && s'.nextSeq == s.nextSeq && s'.ackedCount == s.ackedCount && s'.droppedCount == s.droppedCount
  {
    var fs := s.pending[id].frames;
    assert id in Packers.Cancel(s, st).pending <==> !Carries(fs, st);
    if st == 0 {
      CarriesZero(fs);
    } else {
      CarriesStream(fs, st);
    }
  }

  lemma CarriesZero(fs: seq<Frame>)
    ensures !Carries(fs, 0) <==> forall i :: 0 <= i < |fs| ==> fs[i].Stream? && fs[i].streamId != 0
  {
  }

  lemma CarriesStream(fs: seq<Frame>, st: nat)
    requires st != 0
    ensures !Carries(fs, st) <==> forall i :: 0 <= i < |fs| && fs[i].Stream? ==> fs[i].streamId != st
  {
  }

  /** A recorded packet starts with one try, due 200 ms later, listed under its path's next number, and
      carried by the stream it came from. */
  lemma SubmissionExactly(s: State, op: Op)
    requires op.SubmitFrameOp? || op.SubmitStreamOp?
    ensures var r, s' := ResultOf(s, op), Apply(s, op);
            r.Submitted? ==>
              && r.id == PacketId(op.path, s.Last(op.path) + 1) && r.err == op.err
              && r.id in s'.pending
              && s'.pending[r.id].attempts == 1 && s'.pending[r.id].nextRetry == op.now + 200
              && s'.pending[r.id].carrier == if op.SubmitStreamOp? then op.streamId else op.carrier
  {
  }

  // ----- The waits -----

  lemma {:induction false} Pow2Grows(n: nat)
    ensures n >= 4 ==> Pow2(n) >= 16
  {
    if n > 4 {
      Pow2Grows(n - 1);
    } else {
      assert Pow2(4) == 2 * Pow2(3) == 4 * Pow2(2) == 8 * Pow2(1) == 16 * Pow2(0);
    }
  }

  /** After a good write 400, 800, 1600 and then 3000 ms; after a failed one 200, 400, 800, 1600 and then
      3000 ms, and up to a quarter more by the clock. */
  lemma WaitTable(attempts: pos, err: WriteError, clock: nat)
    ensures var good := if attempts == 1 then 400 else if attempts == 2 then 800 else if attempts == 3 then 1600
                        else 3000;
            var base := if attempts == 1 then 200 else if attempts == 2 then 400 else if attempts == 3 then 800
                        else if attempts == 4 then 1600 else 3000;
            Wait(attempts, err, clock) == if err.NoError? then good else base + clock % (base / 4)
  {
    assert Pow2(0) == 1 && Pow2(1) == 2 && Pow2(2) == 4 && Pow2(3) == 8;
    Pow2Grows(attempts);
    Pow2Grows(attempts - 1);
  }
}
