/** Segmentation of one stream into frames (SendStream and the write side of StreamImpl in
    stream.go). */
module SendStreams {
  import opened Bytes
  import opened Common
  import opened Frames

  datatype Send = Send(base: nat, chunks: seq<seq<byte>>, writeOffset: nat, needsFlush: bool) {
    /** Bytes waiting to be sent. */
    function Buffered(): seq<byte> {
      Concat(chunks)
    }

    ghost predicate Consistent() {
      && writeOffset == base + |Buffered()|
      && (needsFlush <==> chunks != [])
    }
  }

  const EMPTY_SEND := Send(0, [], 0, false)

  function Written(s: Send, p: seq<byte>): Send {
    Send(s.base, s.chunks + [p], s.writeOffset + |p|, true)
  }

  /** The loop of PopFrames: the frames made from `budget` bytes and the chunks left over. */
  function PopLoop(id: nat, offset: nat, chunks: seq<seq<byte>>, budget: int): (seq<Frame>, seq<seq<byte>>)
    decreases |chunks|
  {
    if chunks == [] || budget <= 0 then ([], chunks)
    else if |chunks[0]| > budget then
      ([Stream(id, offset, false, chunks[0][..budget])], [chunks[0][budget..]] + chunks[1..])
    else
      var (frames, left) := PopLoop(id, offset + |chunks[0]|, chunks[1..], budget - |chunks[0]|);
      ([Stream(id, offset, false, chunks[0])] + frames, left)
  }

  predicate StreamFrames(fs: seq<Frame>) {
    forall i :: 0 <= i < |fs| ==> fs[i].Stream?
  }

  /** The payload of a list of stream frames, in order. */
  function Payload(fs: seq<Frame>): seq<byte>
    requires StreamFrames(fs)
  {
    if fs == [] then [] else fs[0].data + Payload(fs[1..])
  }

  function Popped(id: nat, s: Send, maxBytes: int): (r: (seq<Frame>, Send)) {
    if s.chunks == [] then ([], s) else
    var (frames, left) := PopLoop(id, s.base, s.chunks, maxBytes);
    PopLoopFrames(id, s.base, s.chunks, maxBytes);
    (frames, Send(s.base + |Payload(frames)|, left, s.writeOffset, s.needsFlush && left != []))
  }

  lemma {:induction false} PopLoopFrames(id: nat, offset: nat, chunks: seq<seq<byte>>, budget: int)
    ensures StreamFrames(PopLoop(id, offset, chunks, budget).0)
    decreases |chunks|
  {
    if chunks != [] && 0 < budget && |chunks[0]| <= budget {
      PopLoopFrames(id, offset + |chunks[0]|, chunks[1..], budget - |chunks[0]|);
    }
  }

  // ----- What segmentation preserves -----

  /** Frames of the stream `id` that cover [from, to) one after the other. */
  predicate Consecutive(fs: seq<Frame>, id: nat, from: nat, to: nat) {
    if fs == [] then from == to
    else fs[0].Stream? && fs[0].streamId == id && fs[0].offset == from
         && Consecutive(fs[1..], id, from + |fs[0].data|, to)
  }

  predicate NonEmptyChunks(chunks: seq<seq<byte>>) {
    forall i :: 0 <= i < |chunks| ==> chunks[i] != []
  }

  predicate NonEmptyFrames(fs: seq<Frame>) {
    forall i :: 0 <= i < |fs| ==> fs[i].Stream? && fs[i].data != []
  }

  function Taken(budget: int, available: nat): nat {
    if budget <= 0 then 0 else if budget < available then budget else available
  }

  /** The frames carry the next bytes of the chunks at their own offsets, and `left` the others. */
  ghost predicate Segments(id: nat, offset: nat, chunks: seq<seq<byte>>, budget: int, fs: seq<Frame>,
                           left: seq<seq<byte>>)
  {
    var n := Taken(budget, |Concat(chunks)|);
    && StreamFrames(fs)
    && Consecutive(fs, id, offset, offset + n)
    && Payload(fs) == Concat(chunks)[..n]
    && Concat(left) == Concat(chunks)[n..]
    && (NonEmptyChunks(chunks) ==> NonEmptyChunks(left) && NonEmptyFrames(fs))
  }

  lemma {:induction false} PopLoopSegments(id: nat, offset: nat, chunks: seq<seq<byte>>, budget: int)
    ensures var (fs, left) := PopLoop(id, offset, chunks, budget); Segments(id, offset, chunks, budget, fs, left)
    decreases |chunks|
  {
    if chunks == [] || budget <= 0 {
      assert Segments(id, offset, chunks, budget, [], chunks);
    } else if |chunks[0]| > budget {
      PopPart(id, offset, chunks, budget);
    } else {
      hide Segments;
      var (more, left) := PopLoop(id, offset + |chunks[0]|, chunks[1..], budget - |chunks[0]|);
      PopLoopSegments(id, offset + |chunks[0]|, chunks[1..], budget - |chunks[0]|);
      PopWhole(id, offset, chunks, budget, more, left);
    }
  }

  /** The last frame takes only a part of its chunk. */
  lemma PopPart(id: nat, offset: nat, chunks: seq<seq<byte>>, budget: nat)
    requires chunks != [] && 0 < budget < |chunks[0]|
    ensures Segments(id, offset, chunks, budget, [Stream(id, offset, false, chunks[0][..budget])],
                     [chunks[0][budget..]] + chunks[1..])
  {
    var fs := [Stream(id, offset, false, chunks[0][..budget])];
    var left := [chunks[0][budget..]] + chunks[1..];
    assert left[1..] == chunks[1..] && fs[1..] == [];
    PartConcat(chunks[0], Concat(chunks[1..]), budget);
    assert Payload(fs) == chunks[0][..budget] + [];
    assert NonEmptyChunks(chunks) ==> NonEmptyChunks(left) by {
      assert forall i :: 0 < i < |left| ==> left[i] == chunks[i];
    }
  }

  lemma PartConcat(chunk: seq<byte>, rest: seq<byte>, n: nat)
    requires n <= |chunk|
    ensures (chunk + rest)[..n] == chunk[..n]
    ensures (chunk + rest)[n..] == chunk[n..] + rest
  {
  }

  /** A frame that takes a whole chunk, in front of the others. */
  lemma PopWhole(id: nat, offset: nat, chunks: seq<seq<byte>>, budget: nat, more: seq<Frame>, left: seq<seq<byte>>)
    requires chunks != [] && 0 < budget && |chunks[0]| <= budget
    requires Segments(id, offset + |chunks[0]|, chunks[1..], budget - |chunks[0]|, more, left)
    ensures Segments(id, offset, chunks, budget, [Stream(id, offset, false, chunks[0])] + more, left)
  {
    var head := chunks[0];
    var fs := [Stream(id, offset, false, head)] + more;
    assert fs[1..] == more;
    TakeConcat(head, Concat(chunks[1..]), Taken(budget - |head|, |Concat(chunks[1..])|));
    assert NonEmptyChunks(chunks) ==> NonEmptyChunks(chunks[1..]);
  }

  lemma TakeConcat(head: seq<byte>, tail: seq<byte>, m: nat)
    requires m <= |tail|
    ensures (head + tail)[..|head| + m] == head + tail[..m]
    ensures (head + tail)[|head| + m..] == tail[m..]
  {
  }

  /** Any budget: the frames carry the next bytes at their own offsets, the rest stays buffered,
      and the stream's bookkeeping still adds up. */
  lemma PopFramesSegments(id: nat, s: Send, maxBytes: int)
    requires s.Consistent()
    ensures var (fs, s') := Popped(id, s, maxBytes);
            var n := Taken(maxBytes, |s.Buffered()|);
            && StreamFrames(fs)
            && Consecutive(fs, id, s.base, s.base + n)
            && Payload(fs) + s'.Buffered() == s.Buffered()
            && |Payload(fs)| == n
            && s'.Consistent() && s'.base == s.base + n && s'.writeOffset == s.writeOffset
            && (NonEmptyChunks(s.chunks) ==> NonEmptyChunks(s'.chunks) && NonEmptyFrames(fs))
  {
    PopLoopSegments(id, s.base, s.chunks, maxBytes);
  }

  lemma WriteKeepsConsistent(s: Send, p: seq<byte>)
    requires s.Consistent()
    ensures Written(s, p).Consistent() && Written(s, p).Buffered() == s.Buffered() + p
  {
    ConcatSnoc(s.chunks, p);
  }

  /** Moving the write offset leaves a consistent stream exactly when nothing is buffered. */
  lemma SetWriteOffsetExactly(s: Send, offset: nat)
    requires s.Consistent()
    ensures s.(base := offset, writeOffset := offset).Consistent() <==> s.Buffered() == []
  {
  }

  // ----- When a write is flushed -----

  const FLUSH_THRESHOLD_BYTES := 65536
  const FLUSH_THRESHOLD_FRAMES := 10
  const LARGE_WRITE_THRESHOLD := 32768

  predicate ShouldFlush(s: Send, writeSize: nat) {
    || writeSize >= LARGE_WRITE_THRESHOLD
    || |s.Buffered()| >= FLUSH_THRESHOLD_BYTES
    || |s.chunks| >= FLUSH_THRESHOLD_FRAMES
    || s.needsFlush
  }

  /** The batching never batches: whatever was buffered, every write is flushed at once; and with
      consistent bookkeeping the thresholds never decide anything else. */
  lemma EveryWriteIsFlushed(s: Send, p: seq<byte>)
    ensures ShouldFlush(Written(s, p), |p|)
    ensures s.Consistent() ==> (ShouldFlush(s, 0) <==> s.chunks != [])
  {
  }

  class SendStream {
    const streamId: nat
    var writeOffset: nat
    var sendBuffer: seq<seq<byte>>
    var baseOffset: nat
    var needsFlush: bool

    function State(): Send
      reads this
    {
      Send(baseOffset, sendBuffer, writeOffset, needsFlush)
    }

    constructor (id: nat)
      ensures State() == EMPTY_SEND && streamId == id
    {
      streamId := id;
      writeOffset, sendBuffer, baseOffset, needsFlush := 0, [], 0, false;
    }

    method Write(p: seq<byte>) returns (n: nat)
      modifies this
      ensures State() == Written(old(State()), p)
      ensures n == |p|
    {
      sendBuffer := sendBuffer + [p];
      writeOffset := writeOffset + |p|;
      needsFlush := true;
      n := |p|;
    }

    method PopFrames(maxBytes: int) returns (frames: seq<Frame>)
      modifies this
      ensures (frames, State()) == Popped(streamId, old(State()), maxBytes)
    {
      frames := [];
      if |sendBuffer| == 0 {
        return;
      }
      ghost var start := State();
      var budget := maxBytes;
      var currentOffset, bytesConsumed := baseOffset, 0;
      ghost var all := PopLoop(streamId, start.base, start.chunks, maxBytes);
      assert Resumes(streamId, start.base, start.chunks, maxBytes, [], all) by {
        assert [] + all.0 == all.0;
      }
      assert StreamFrames(frames) && Payload(frames) == [];
      PoppedIs(streamId, start, maxBytes);
      hide *;
      while |sendBuffer| > 0 && budget > 0
        invariant baseOffset == start.base && writeOffset == start.writeOffset && needsFlush == start.needsFlush
        invariant currentOffset == start.base + bytesConsumed
        invariant StreamFrames(frames) && bytesConsumed == |Payload(frames)|
        invariant Resumes(streamId, currentOffset, sendBuffer, budget, frames, all)
        decreases |sendBuffer| + budget
      {
        var data := sendBuffer[0];
        var frameSize := |data|;
        if frameSize > budget {
          PopStepPart(streamId, currentOffset, sendBuffer, budget, frames, all);
          data := data[..budget];
          sendBuffer := [sendBuffer[0][budget..]] + sendBuffer[1..];
          frameSize := budget;
        } else {
          PopStepWhole(streamId, currentOffset, sendBuffer, budget, frames, all);
          sendBuffer := sendBuffer[1..];
        }
        var frame := Stream(streamId, currentOffset, false, data);
        frames := frames + [frame];
        currentOffset := currentOffset + frameSize;
        bytesConsumed := bytesConsumed + frameSize;
        budget := budget - frameSize;
      }
      PopDone(streamId, currentOffset, sendBuffer, budget, frames, all);
      baseOffset := baseOffset + bytesConsumed;
      if |sendBuffer| == 0 {
        needsFlush := false;
      }
    }

    method HasBuffered() returns (r: bool)
      ensures r <==> State().chunks != []
    {
      r := |sendBuffer| > 0;
    }
  }

  /** Continuing from here with `frames` already made gives `all`. */
  ghost predicate Resumes(id: nat, offset: nat, chunks: seq<seq<byte>>, budget: int, frames: seq<Frame>,
                          all: (seq<Frame>, seq<seq<byte>>))
  {
    var (more, left) := PopLoop(id, offset, chunks, budget);
    all == (frames + more, left)
  }

  lemma PoppedIs(id: nat, s: Send, maxBytes: int)
    requires s.chunks != []
    ensures var (frames, left) := PopLoop(id, s.base, s.chunks, maxBytes);
            StreamFrames(frames) && Popped(id, s, maxBytes)
            == (frames, Send(s.base + |Payload(frames)|, left, s.writeOffset, s.needsFlush && left != []))
  {
    PopLoopFrames(id, s.base, s.chunks, maxBytes);
  }

  lemma PopDone(id: nat, offset: nat, chunks: seq<seq<byte>>, budget: int, frames: seq<Frame>,
                all: (seq<Frame>, seq<seq<byte>>))
    requires chunks == [] || budget <= 0
    requires Resumes(id, offset, chunks, budget, frames, all)
    ensures all == (frames, chunks)
  {
    assert frames + [] == frames;
  }

  /** One more frame, from a part of the first chunk. */
  lemma PopStepPart(id: nat, offset: nat, chunks: seq<seq<byte>>, budget: int, frames: seq<Frame>,
                    all: (seq<Frame>, seq<seq<byte>>))
    requires chunks != [] && 0 < budget < |chunks[0]| && StreamFrames(frames)
    requires Resumes(id, offset, chunks, budget, frames, all)
    ensures var f := Stream(id, offset, false, chunks[0][..budget]);
            && StreamFrames(frames + [f]) && |Payload(frames + [f])| == |Payload(frames)| + budget
            && Resumes(id, offset + budget, [chunks[0][budget..]] + chunks[1..], 0, frames + [f], all)
  {
    PayloadSnoc(frames, Stream(id, offset, false, chunks[0][..budget]));
    assert frames + [Stream(id, offset, false, chunks[0][..budget])] + []
        == frames + [Stream(id, offset, false, chunks[0][..budget])];
  }

  /** One more frame, from the whole first chunk. */
  lemma PopStepWhole(id: nat, offset: nat, chunks: seq<seq<byte>>, budget: int, frames: seq<Frame>,
                     all: (seq<Frame>, seq<seq<byte>>))
    requires chunks != [] && 0 < budget && |chunks[0]| <= budget && StreamFrames(frames)
    requires Resumes(id, offset, chunks, budget, frames, all)
    ensures var f := Stream(id, offset, false, chunks[0]);
            && StreamFrames(frames + [f]) && |Payload(frames + [f])| == |Payload(frames)| + |chunks[0]|
            && Resumes(id, offset + |chunks[0]|, chunks[1..], budget - |chunks[0]|, frames + [f], all)
  {
    var f := Stream(id, offset, false, chunks[0]);
    PayloadSnoc(frames, f);
    var (rest, _) := PopLoop(id, offset + |chunks[0]|, chunks[1..], budget - |chunks[0]|);
    assert frames + ([f] + rest) == (frames + [f]) + rest;
  }

  lemma {:induction false} PayloadSnoc(fs: seq<Frame>, f: Frame)
    requires StreamFrames(fs) && f.Stream?
    ensures StreamFrames(fs + [f]) && Payload(fs + [f]) == Payload(fs) + f.data
  {
    var all := fs + [f];
    assert StreamFrames(all);
    if fs == [] {
      assert all[1..] == [];
    } else {
      PayloadSnoc(fs[1..], f);
      assert all[1..] == fs[1..] + [f] && all[0] == fs[0];
      assert fs[0].data + (Payload(fs[1..]) + f.data) == (fs[0].data + Payload(fs[1..])) + f.data;
    }
  }

  /** The part of StreamImpl that owns the send stream. */
  class StreamImpl {
    const send: SendStream
    var writeOffset: nat
    var paths: set<nat>
    var primaryPathID: nat

    constructor (id: nat)
      ensures fresh(send) && send.State() == EMPTY_SEND && send.streamId == id
      ensures writeOffset == 0 && paths == {} && primaryPathID == 0
    {
      send := new SendStream(id);
      writeOffset, paths, primaryPathID := 0, {}, 0;
    }

    /** The primary path is attached whenever any path is. Path numbers start at 1. */
    ghost predicate PrimaryValid()
      reads this
    {
      0 !in paths && if paths == {} then primaryPathID == 0 else primaryPathID in paths
    }

    method AddPath(pid: nat)
      requires pid != 0 && PrimaryValid()
      modifies this`paths, this`primaryPathID
      ensures PrimaryValid() && paths == old(paths) + {pid}
      ensures old(paths) != {} ==> primaryPathID == old(primaryPathID)
    {
      if pid in paths {
        return;
      }
      paths := paths + {pid};
      if primaryPathID == 0 {
        primaryPathID := pid;
      }
    }

    method RemovePath(pid: nat)
      requires PrimaryValid()
      modifies this`paths, this`primaryPathID
      ensures PrimaryValid() && paths == old(paths) - {pid}
      ensures old(primaryPathID) != pid ==> primaryPathID == old(primaryPathID)
    {
      if pid !in paths {
        return;
      }
      paths := paths - {pid};
      assert primaryPathID != pid ==> primaryPathID in paths;
      if primaryPathID == pid {
        primaryPathID := 0;
        if paths != {} {
          var other :| other in paths;
          primaryPathID := other;
        }
      }
    }

    /** Write with the outcome of the packer's submission as input: on failure the bytes are already
        in the send stream, and only the send stream's offset has moved. */
    method Write(p: seq<byte>, submitted: bool) returns (n: Option<nat>)
      modifies this`writeOffset, send
      ensures n == if p == [] then Some(0) else if primaryPathID in paths && submitted then Some(|p|) else None
      ensures send.State() == if p == [] || primaryPathID !in paths then old(send.State())
                              else Written(old(send.State()), p)
      ensures writeOffset == old(writeOffset) + (if n.Some? then n.value else 0)
    {
      if |p| == 0 {
        return Some(0);
      }
      if primaryPathID !in paths {
        return None;
      }
      var written := send.Write(p);
      var flush := ShouldFlush(send.State(), |p|);
      if flush && !submitted {
        return None;
      }
      writeOffset := writeOffset + written;
      return Some(written);
    }

    method SetWriteOffset(offset: nat)
      modifies this`writeOffset, send
      ensures writeOffset == offset
      ensures send.State() == old(send.State()).(base := offset, writeOffset := offset)
    {
      writeOffset := offset;
      send.baseOffset := offset;
      send.writeOffset := offset;
    }
  }
}
