/** What the two submit functions of the packer keep and what they lose: sizes, bytes taken from
    the send stream, and the queue of a path. */
module Assembly {
  import opened AckRanges
  import opened Bytes
  import opened Common
  import opened Frames
  import opened Packets
  import opened Packers
  import opened SendStreams

  /** The sum of the code's size estimates. */
  function EstimateSum(fs: seq<Frame>): nat
    requires StreamFrames(fs)
  {
    if fs == [] then 0 else Estimate(fs[0]) + EstimateSum(fs[1..])
  }

  /** The estimate falls short of the body by 17 bytes and 5 more for every frame. */
  lemma {:induction false} EstimateShortfall(fs: seq<Frame>)
    requires StreamFrames(fs)
    ensures EstimateSum(fs) == 21 * |fs| + |Payload(fs)|
    ensures BodyLength(fs) == EstimateSum(fs) + 17 + 5 * |fs|
  {
    if fs != [] {
      EstimateShortfall(fs[1..]);
    }
  }

  /** The packing loop keeps a prefix, and all of it exactly when the estimates fit. */
  lemma {:induction false} FitExactly(max: nat, fs: seq<Frame>, size: nat)
    requires StreamFrames(fs) && size <= max
    ensures var t := Fit(max, fs, size);
            && (t.Some? ==> |t.value| <= |fs| && t.value == fs[..|t.value|])
            && (t == Some(fs) <==> size + EstimateSum(fs) <= max)
  {
    if fs != [] && Estimate(fs[0]) <= max && size + Estimate(fs[0]) <= max {
      FitExactly(max, fs[1..], size + Estimate(fs[0]));
      var rest := Fit(max, fs[1..], size + Estimate(fs[0]));
      if rest.Some? {
        var t := [fs[0]] + rest.value;
        assert t == fs[..|t|];
        assert t[1..] == rest.value;
        assert t == fs <==> rest.value == fs[1..];
      }
    }
  }

  /** The frames that a submission took from the send stream all went into its packet. */
  predicate AllRecorded(s': State, r: SubmitResult, fs: seq<Frame>) {
    r.Submitted? && r.id in s'.pending && s'.pending[r.id].frames == fs
  }

  /** Frames are popped before they are known to fit. They are all recorded exactly when the path is
      registered and 17 + 26n + L bytes are within the limit, for n frames and L bytes of data;
      otherwise what is recorded, if anything, is a strict prefix, and the rest is gone from the
      send stream. */
  lemma SubmissionConservesExactly(s: State, p: PathId, id: nat, send: Send, now: nat, err: WriteError)
    requires send.Consistent() && Popped(id, send, s.maxPacketSize).0 != []
    ensures var fs := Popped(id, send, s.maxPacketSize).0;
            var (s', send', r) := SubmitFromSendStream(s, p, id, send, now, err);
            && StreamFrames(fs)
            && Payload(fs) + send'.Buffered() == send.Buffered()
            && (AllRecorded(s', r, fs)
                <==> p in s.paths && 17 + 26 * |fs| + |Payload(fs)| <= s.maxPacketSize)
            && (r.Submitted? && !AllRecorded(s', r, fs) ==>
                  r.id in s'.pending && s'.pending[r.id].frames < fs)
            && (!r.Submitted? ==> s'.pending == s.pending)
  {
    var fs := Popped(id, send, s.maxPacketSize).0;
    PopFramesSegments(id, send, s.maxPacketSize);
    FitsExactly(s.maxPacketSize, fs);
    RecordedFrames(s, p, id, send, now, err);
    hide Popped, Fit, SubmitFromSendStream, Consecutive, BodyLength, Payload, EstimateSum;
    var taken := Fit(s.maxPacketSize, fs, 0);
    if taken.Some? && taken.value != fs {
      assert taken.value < fs;
    }
  }

  /** A packet is recorded when something was kept, the path is registered and the body is within the
      limit; it holds what was kept. */
  lemma RecordedFrames(s: State, p: PathId, id: nat, send: Send, now: nat, err: WriteError)
    requires Popped(id, send, s.maxPacketSize).0 != [] && StreamFrames(Popped(id, send, s.maxPacketSize).0)
    ensures var t := Fit(s.maxPacketSize, Popped(id, send, s.maxPacketSize).0, 0);
            var (s', send', r) := SubmitFromSendStream(s, p, id, send, now, err);
            && send' == Popped(id, send, s.maxPacketSize).1
            && (r.Submitted? <==>
                  t.Some? && t.value != [] && BodyLength(t.value) <= s.maxPacketSize && p in s.paths)
            && (r.Submitted? ==> r.id in s'.pending && s'.pending[r.id].frames == t.value)
            && (!r.Submitted? ==> s'.pending == s.pending)
  {
    hide Popped, Fit, BodyLength;
  }

  /** All frames go into the packet, and its body is within the limit, exactly when 17 + 26n + L bytes
      are; what the packing loop keeps has a body no larger than that of all. */
  lemma FitsExactly(max: nat, fs: seq<Frame>)
    requires StreamFrames(fs)
    ensures var t := Fit(max, fs, 0);
            && (t.Some? ==> t.value <= fs)
            && (t == Some(fs) && BodyLength(fs) <= max <==> 17 + 26 * |fs| + |Payload(fs)| <= max)
  {
    FitExactly(max, fs, 0);
    EstimateShortfall(fs);
  }

  lemma {:induction false} PopLoopTakesAll(id: nat, offset: nat, chunks: seq<seq<byte>>, budget: int)
    requires |Concat(chunks)| < budget
    ensures var (fs, left) := PopLoop(id, offset, chunks, budget);
            |fs| == |chunks| && left == []
    decreases |chunks|
  {
    if chunks != [] {
      PopLoopTakesAll(id, offset + |chunks[0]|, chunks[1..], budget - |chunks[0]|);
    }
  }

  /** When everything buffered fits, one submission on a registered path moves it all into one
      packet, at consecutive offsets from the first unsent one. */
  lemma WholeBufferSubmitted(s: State, p: PathId, id: nat, send: Send, now: nat, err: WriteError)
    requires send.Consistent() && send.chunks != [] && p in s.paths
    requires 17 + 26 * |send.chunks| + |send.Buffered()| <= s.maxPacketSize
    ensures var (s', send', r) := SubmitFromSendStream(s, p, id, send, now, err);
            && r.Submitted? && r.id in s'.pending
            && send'.chunks == [] && send'.base == send.writeOffset
            && StreamFrames(s'.pending[r.id].frames)
            && Payload(s'.pending[r.id].frames) == send.Buffered()
            && Consecutive(s'.pending[r.id].frames, id, send.base, send.writeOffset)
            && BodyLength(s'.pending[r.id].frames) == 17 + 26 * |send.chunks| + |send.Buffered()|
  {
    PopLoopTakesAll(id, send.base, send.chunks, s.maxPacketSize);
    PopFramesSegments(id, send, s.maxPacketSize);
    SubmissionConservesExactly(s, p, id, send, now, err);
    var (fs, send') := Popped(id, send, s.maxPacketSize);
    EstimateShortfall(fs);
    assert Payload(fs) == send.Buffered() by {
      assert send'.Buffered() == [];
    }
  }

  /** A single write of more than 43 bytes below the limit is popped and never recorded. */
  lemma LargeWriteIsLost(s: State, p: PathId, id: nat, data: seq<byte>, now: nat, err: WriteError)
    requires s.maxPacketSize - 43 < |data| <= s.maxPacketSize && data != []
    ensures var (s', send', r) := SubmitFromSendStream(s, p, id, Written(EMPTY_SEND, data), now, err);
            s'.pending == s.pending && !r.Submitted? && send'.Buffered() == []
  {
    var send := Written(EMPTY_SEND, data);
    WriteKeepsConsistent(EMPTY_SEND, data);
    var fs := Popped(id, send, s.maxPacketSize).0;
    assert send.chunks == [data] && send.chunks[1..] == [];
    assert PopLoop(id, |data|, send.chunks[1..], s.maxPacketSize - |data|) == ([], []);
    assert fs == [Stream(id, 0, false, data)] + [];
    EstimateShortfall(fs);
    assert Payload(fs) == data + Payload(fs[1..]);
    assert fs[1..] == [];
    var taken := Fit(s.maxPacketSize, fs, 0);
    assert Fit(s.maxPacketSize, fs[1..], Estimate(fs[0])) == Some([]);
    assert [fs[0]] + [] == fs;
    assert taken.Some? ==> taken.value == fs;
  }

  // ----- The queue of a path -----

  /** Every queued frame is taken: the packet limit is enforced only afterwards, on the whole body.
      A frame goes out exactly when nothing queued is too large by itself, the body is within the
      limit and the path is registered. */
  lemma SubmitFrameExactly(s: State, p: PathId, f: Frame, carrier: nat, now: nat, err: WriteError)
    ensures var q := s.Queue(p) + [f];
            var (s', r) := SubmitFrame(s, p, f, carrier, now, err);
            && (r.Submitted? <==> !AnyTooLarge(s.maxPacketSize, q) && BodyLength(q) <= s.maxPacketSize && p in s.paths)
            && (r.Submitted? ==> r.id in s'.pending && s'.pending[r.id].frames == q)
            && s'.Queue(p) == (if AnyTooLarge(s.maxPacketSize, q) then q else [])
            && (forall p' :: p' != p ==> s'.Queue(p') == s.Queue(p'))
  {
  }

  /** A queue that holds a frame too large by itself never shrinks: each later submission on the path
      is refused, whatever the frame, and leaves the queue in the same condition. */
  lemma BlockedQueueStaysBlocked(s: State, p: PathId, f: Frame, carrier: nat, now: nat, err: WriteError)
    requires AnyTooLarge(s.maxPacketSize, s.Queue(p))
    ensures var (s', r) := SubmitFrame(s, p, f, carrier, now, err);
            r == Refused && AnyTooLarge(s'.maxPacketSize, s'.Queue(p)) && s'.pending == s.pending
  {
    var q := s.Queue(p) + [f];
    var i :| 0 <= i < |s.Queue(p)| && TooLarge(s.maxPacketSize, s.Queue(p)[i]);
    assert q[i] == s.Queue(p)[i];
    assert TooLarge(s.maxPacketSize, q[i]);
  }
}
