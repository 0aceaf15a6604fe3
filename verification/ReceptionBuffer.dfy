/** The fallback receive path: a bounded cache of seen offsets in front of a buffer keyed by offset
    (ReceptionBuffer in internal/transport/multiplexer.go, StreamBuffer in stream_buffer.go). */
module ReceptionBuffers {
  import opened AckRanges
  import opened Bytes
  import opened Common
  import opened RecvStreams

  const MAX_SEEN: nat := 1000

  /** `delivered` is the history: everything that reads have returned. */
  datatype Buffer = Buffer(seen: set<nat>, data: map<nat, seq<byte>>, readOffset: nat, delivered: seq<byte>) {
    /** The same buffer seen as a reassembly state with nothing waiting to be read. */
    function AsRecv(): Recv {
      Recv(readOffset, data, [], false)
    }
  }

  const EMPTY_BUFFER := Buffer({}, map[], 0, [])

  /** `kept` are the `n` largest of `all`. */
  ghost predicate Largest(kept: set<nat>, all: set<nat>, n: nat) {
    && kept <= all && |kept| == n
    && forall k, x :: k in kept && x in all && x !in kept ==> x < k
  }

  /** The cache after an insertion made it `all`: over 1000 entries, the largest half is kept. */
  ghost predicate Trimmed(all: set<nat>, kept: set<nat>) {
    if |all| <= MAX_SEEN then kept == all else Largest(kept, all, Min(|all| / 2, MAX_SEEN / 2))
  }

  /** The effect of PushStreamFrame. */
  ghost predicate Pushed(s: Buffer, o: nat, d: seq<byte>, s': Buffer) {
    if o in s.seen then s' == s
    else
      && Trimmed(s.seen + {o}, s'.seen)
      && s'.data == s.data[o := d] && s'.readOffset == s.readOffset && s'.delivered == s.delivered
  }

  /** The effect of PopAllFrames: everything up to the first gap. */
  function Popped(s: Buffer): Buffer {
    var d := Drain(Repaired, s.AsRecv());
    Buffer(s.seen, d.buffered, d.expected, s.delivered + d.readBuf)
  }

  class StreamBuffer {
    var Data: map<nat, seq<byte>>
    var ReadOffset: nat

    constructor ()
      ensures Data == map[] && ReadOffset == 0
    {
      Data, ReadOffset := map[], 0;
    }

    method Insert(offset: nat, data: seq<byte>)
      modifies this
      ensures Data == old(Data)[offset := data] && ReadOffset == old(ReadOffset)
    {
      Data := Data[offset := data];
    }

    method Read() returns (result: seq<byte>)
      modifies this
      ensures Recv(ReadOffset, Data, result, false)
           == Drain(Repaired, Recv(old(ReadOffset), old(Data), [], false))
    {
      result := [];
      ghost var start := Recv(ReadOffset, Data, [], false);
      while ReadOffset in Data
        invariant Drain(Repaired, Recv(ReadOffset, Data, result, false)) == Drain(Repaired, start)
        decreases |Data|
      {
        var chunk := Data[ReadOffset];
        assert |Data - {ReadOffset}| == |Data.Keys - {ReadOffset}|;
        result := result + chunk;
        ReadOffset := ReadOffset + |chunk|;
        Data := Data - {ReadOffset - |chunk|};
      }
    }
  }

  class ReceptionBuffer {
    const streamBuffer: StreamBuffer
    var seenOffsets: set<nat>

    ghost function Value(delivered: seq<byte>): Buffer
      reads this, streamBuffer
    {
      Buffer(seenOffsets, streamBuffer.Data, streamBuffer.ReadOffset, delivered)
    }

    constructor ()
      ensures fresh(streamBuffer) && Value([]) == EMPTY_BUFFER
    {
      streamBuffer := new StreamBuffer();
      seenOffsets := {};
    }

    method CleanupSeenOffsets()
      requires |seenOffsets| > MAX_SEEN
      modifies this
      ensures Largest(seenOffsets, old(seenOffsets), Min(old(|seenOffsets|) / 2, MAX_SEEN / 2))
      ensures |seenOffsets| == 500
    {
      var ascending := Sorted(seenOffsets);
      ghost var all := seenOffsets;
      SortedSize(all, ascending);
      var newSeen: set<nat> := {};
      var i := 0;
      while i < |ascending| / 2 && i < MAX_SEEN / 2
        invariant i <= |ascending| / 2 && i <= MAX_SEEN / 2
        invariant newSeen == set j | |ascending| - i <= j < |ascending| :: ascending[j]
        invariant |newSeen| == i
      {
        var next := ascending[|ascending| - 1 - i];
        assert forall j :: |ascending| - i <= j < |ascending| ==> ascending[j] != next;
        assert next !in newSeen;
        newSeen := newSeen + {next};
        i := i + 1;
      }
      seenOffsets := newSeen;
    }

    method PushStreamFrame(offset: nat, data: seq<byte>)
      modifies this, streamBuffer
      ensures forall delivered :: Pushed(old(Value(delivered)), offset, data, Value(delivered))
    {
      if offset in seenOffsets {
        return;
      }
      seenOffsets := seenOffsets + {offset};
      if |seenOffsets| > MAX_SEEN {
        CleanupSeenOffsets();
      }
      streamBuffer.Insert(offset, data);
    }

    /** The bytes of the one frame returned, at the old read offset; none if there is a gap. */
    method PopAllFrames() returns (offset: nat, data: seq<byte>)
      modifies streamBuffer
      ensures forall delivered ::
                Value(delivered + data) == Popped(old(Value(delivered)))
      ensures offset == old(streamBuffer.ReadOffset) && streamBuffer.ReadOffset == offset + |data|
    {
      DrainAdvances(Recv(streamBuffer.ReadOffset, streamBuffer.Data, [], false));
      data := streamBuffer.Read();
      offset := streamBuffer.ReadOffset - |data|;
    }
  }

  lemma {:induction false} DrainAdvances(s: Recv)
    ensures Drain(Repaired, s).expected - |Drain(Repaired, s).readBuf| == s.expected - |s.readBuf|
    decreases |s.buffered|
  {
    if s.expected in s.buffered {
      assert |DrainOnce(Repaired, s).buffered| == |s.buffered.Keys - {s.expected}|;
      DrainAdvances(DrainOnce(Repaired, s));
    }
  }

  lemma {:induction false} SortedSize(s: set<nat>, r: seq<nat>)
    requires Ascending(r) && forall x :: x in r <==> x in s
    ensures |r| == |s|
  {
    if r == [] {
      assert s == {};
    } else {
      var last := r[|r| - 1];
      assert last in r;
      SortedSize(s - {last}, r[..|r| - 1]);
    }
  }

  /** The cache never holds more than 1000 offsets after a push. */
  lemma CacheBounded(s: Buffer, o: nat, d: seq<byte>, s': Buffer)
    requires |s.seen| <= 1000 && Pushed(s, o, d, s')
    ensures |s'.seen| <= 1000
  {
  }

  /** Right after a push that evicts nothing, a second frame at the same offset is ignored, whatever it
      carries; after one that does, it is ignored exactly when its offset is among the 500 largest. */
  lemma DuplicateIgnoredExactly(s: Buffer, o: nat, d: seq<byte>, s1: Buffer, d': seq<byte>, s2: Buffer)
    requires |s.seen| <= 1000 && o !in s.seen && Pushed(s, o, d, s1) && Pushed(s1, o, d', s2) && d' != d
    ensures s2 == s1 <==> |s.seen| < 1000 || o in s1.seen
    ensures |s.seen| == 1000 ==>
              |s1.seen| == 500 && forall k, x :: k in s1.seen && x in s.seen + {o} && x !in s1.seen ==> x < k
  {
    assert |s.seen + {o}| == |s.seen| + 1;
    assert o in s1.data && s1.data[o] == d;
  }

  // ----- Runs -----

  datatype Op = Push(offset: nat, data: seq<byte>) | Pop

  ghost predicate Next(s: Buffer, op: Op, s': Buffer) {
    match op
    case Push(o, d) => Pushed(s, o, d, s')
    case Pop => s' == Popped(s)
  }

  /** `states` are the states of a run of `ops` from an empty buffer. */
  ghost predicate IsRun(ops: seq<Op>, states: seq<Buffer>) {
    && |states| == |ops| + 1 && states[0] == EMPTY_BUFFER
    && forall i :: 0 <= i < |ops| ==> Next(states[i], ops[i], states[i + 1])
  }

  /** The buffer stands for a prefix of the stream: what was returned, and slices further on. */
  ghost predicate Prefix(s: Buffer, w: seq<byte>) {
    Faithful(s.AsRecv(), s.delivered, w) && |s.seen| <= MAX_SEEN
  }

  lemma NextKeepsPrefix(s: Buffer, op: Op, s': Buffer, w: seq<byte>)
    requires Prefix(s, w) && Next(s, op, s') && (op.Push? ==> IsSlice(w, op.offset, op.data))
    ensures Prefix(s', w) && s.delivered <= s'.delivered
  {
    if op.Pop? {
      DrainFaithful(Repaired, s.AsRecv(), s.delivered, w);
      assert s'.delivered + [] == s'.delivered;
    } else if op.offset !in s.seen {
      CacheBounded(s, op.offset, op.data, s');
    }
  }

  /** Whatever is evicted from the cache and however frames repeat, reads return a growing prefix of
      the stream. */
  lemma {:induction false} RunReadsPrefix(ops: seq<Op>, states: seq<Buffer>, w: seq<byte>)
    requires IsRun(ops, states)
    requires forall i :: 0 <= i < |ops| && ops[i].Push? ==> IsSlice(w, ops[i].offset, ops[i].data)
    ensures forall i :: 0 <= i < |states| ==> Prefix(states[i], w)
    ensures var last := states[|ops|];
            last.readOffset <= |w| && last.delivered == w[..last.readOffset]
  {
    if ops != [] {
      var n := |ops| - 1;
      RunReadsPrefix(ops[..n], states[..n + 1], w);
      assert states[..n + 1][n] == states[n];
      NextKeepsPrefix(states[n], ops[n], states[n + 1], w);
      assert forall i :: 0 <= i <= n ==> states[..n + 1][i] == states[i];
    }
    var last := states[|ops|];
    assert last.delivered + [] == last.delivered;
  }

  ghost predicate PushedOffset(ops: seq<Op>, o: nat) {
    exists i :: 0 <= i < |ops| && ops[i].Push? && ops[i].offset == o
  }

  /** The frames of a tiling: pushed ones are held, cached ones are held, and nothing else is. */
  ghost predicate Holding(t: Tiling, s: Buffer, ops: seq<Op>) {
    && t.Boundary(s.readOffset) && FromTiles(t, s.AsRecv())
    && (forall o :: o in s.seen ==> Held(s.AsRecv(), o))
    && (forall o :: PushedOffset(ops, o) ==> Held(s.AsRecv(), o))
    && (forall o :: o in t.tiles && Held(s.AsRecv(), o) ==> PushedOffset(ops, o))
  }

  ghost predicate PushesTiles(t: Tiling, ops: seq<Op>) {
    forall i :: 0 <= i < |ops| && ops[i].Push? ==> ops[i].offset in t.tiles && ops[i].data == t.tiles[ops[i].offset]
  }

  lemma PushKeepsHolding(t: Tiling, s: Buffer, ops: seq<Op>, op: Op, s': Buffer)
    requires t.Valid() && Holding(t, s, ops) && op.Push? && Next(s, op, s') && PushesTiles(t, [op])
    ensures Holding(t, s', ops + [op])
  {
    assert [op][0] == op;
    PushedSnoc(ops, op);
    forall o: nat | Held(s.AsRecv(), o)
      ensures Held(s'.AsRecv(), o)
    {
    }
    assert Held(s'.AsRecv(), op.offset);
  }

  lemma PopKeepsHolding(t: Tiling, s: Buffer, ops: seq<Op>)
    requires t.Valid() && Holding(t, s, ops)
    ensures Holding(t, Popped(s), ops + [Pop]) && Popped(s).readOffset !in Popped(s).data
  {
    PushedSnoc(ops, Pop);
    RepairedDrain(t, s.AsRecv());
    var d := Drain(Repaired, s.AsRecv());
    assert forall o: nat :: Held(d, o) == Held(Popped(s).AsRecv(), o);
  }

  lemma PushedSnoc(ops: seq<Op>, op: Op)
    ensures forall o :: PushedOffset(ops + [op], o) <==> PushedOffset(ops, o) || (op.Push? && op.offset == o)
  {
    forall o
      ensures PushedOffset(ops + [op], o) <==> PushedOffset(ops, o) || (op.Push? && op.offset == o)
    {
      if PushedOffset(ops, o) {
        var i :| 0 <= i < |ops| && ops[i].Push? && ops[i].offset == o;
        assert (ops + [op])[i] == ops[i];
      }
      assert (ops + [op])[|ops|] == op;
    }
  }

  lemma LastStep(t: Tiling, ops: seq<Op>, states: seq<Buffer>)
    requires IsRun(ops, states) && PushesTiles(t, ops) && ops != []
    ensures var n := |ops| - 1;
            && IsRun(ops[..n], states[..n + 1]) && PushesTiles(t, ops[..n]) && PushesTiles(t, [ops[n]])
            && Next(states[n], ops[n], states[n + 1])
            && ops[..n] + [ops[n]] == ops && states[..n + 1][n] == states[n]
  {
    var n := |ops| - 1;
    assert forall i :: 0 <= i < n ==> ops[..n][i] == ops[i];
    assert forall i :: 0 <= i <= n ==> states[..n + 1][i] == states[i];
  }

  lemma StepHolding(t: Tiling, s: Buffer, ops: seq<Op>, op: Op, s': Buffer)
    requires t.Valid() && Holding(t, s, ops) && Next(s, op, s') && PushesTiles(t, [op])
    ensures Holding(t, s', ops + [op])
  {
    if op.Push? {
      PushKeepsHolding(t, s, ops, op, s');
    } else {
      PopKeepsHolding(t, s, ops);
    }
  }

  lemma {:induction false} RunHolding(t: Tiling, ops: seq<Op>, states: seq<Buffer>)
    requires t.Valid() && IsRun(ops, states) && PushesTiles(t, ops)
    ensures Holding(t, states[|ops|], ops)
  {
    if ops == [] {
      assert forall o: nat :: !Held(EMPTY_BUFFER.AsRecv(), o);
    } else {
      var n := |ops| - 1;
      LastStep(t, ops, states);
      RunHolding(t, ops[..n], states[..n + 1]);
      StepHolding(t, states[n], ops[..n], ops[n], states[n + 1]);
    }
  }

  /** A read returns everything there is up to the first frame not yet pushed; so the stream is
      complete exactly when every frame was pushed at least once. */
  lemma ReadIsCompleteExactly(t: Tiling, ops: seq<Op>, states: seq<Buffer>)
    requires t.Valid() && IsRun(ops + [Pop], states) && PushesTiles(t, ops)
    ensures var last := states[|ops| + 1];
            && (last.readOffset == t.n || (last.readOffset in t.tiles && !PushedOffset(ops, last.readOffset)))
            && (last.readOffset == t.n <==> forall o :: o in t.tiles ==> PushedOffset(ops, o))
  {
    var all := ops + [Pop];
    assert all[|ops|] == Pop && all[..|ops|] == ops;
    RunHolding(t, ops, states[..|ops| + 1]) by {
      assert forall i :: 0 <= i < |ops| ==> all[i] == ops[i];
    }
    var before, last := states[|ops|], states[|ops| + 1];
    PopKeepsHolding(t, before, ops);
    PushedSnoc(ops, Pop);
    assert Next(before, all[|ops|], last);
    if last.readOffset in t.tiles {
      assert !Held(last.AsRecv(), last.readOffset);
      assert last.readOffset < t.End(last.readOffset) <= t.n;
    } else {
      forall o | o in t.tiles
        ensures PushedOffset(ops, o)
      {
        assert o < t.End(o) <= t.n;
        assert Held(last.AsRecv(), o);
      }
    }
  }
}
