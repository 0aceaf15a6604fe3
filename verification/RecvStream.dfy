/** Reassembly of one stream from frames that arrive in any order, any number of times
    (RecvStream in stream.go). */
module RecvStreams {
  import opened Bytes
  import opened Common

  datatype Recv = Recv(expected: nat, buffered: map<nat, seq<byte>>, readBuf: seq<byte>, fin: bool)

  const EMPTY_RECV := Recv(0, map[], [], false)

  /** One round of the drain loop. As written, the key deleted is the offset reached, not the one
      consumed. */
  function DrainOnce(v: Variant, s: Recv): Recv
    requires s.expected in s.buffered
  {
    var chunk := s.buffered[s.expected];
    var next := s.expected + |chunk|;
    Recv(next, s.buffered - {if v.AsWritten? then next else s.expected}, s.readBuf + chunk, s.fin)
  }

  function Drain(v: Variant, s: Recv): (r: Recv)
    ensures r.expected !in r.buffered
    decreases if v.AsWritten? then (if s.expected in s.buffered then 1 else 0) else |s.buffered|
  {
    if s.expected !in s.buffered then s
    else
      assert v.Repaired? ==> |DrainOnce(v, s).buffered| == |s.buffered.Keys - {s.expected}|;
      Drain(v, DrainOnce(v, s))
  }

  function HandleFrame(v: Variant, s: Recv, offset: nat, data: seq<byte>, fin: bool): Recv {
    if offset == s.expected then
      Drain(v, s.(expected := s.expected + |data|, readBuf := s.readBuf + data)).(fin := s.fin || fin)
    else if offset > s.expected then
      s.(buffered := s.buffered[offset := data])
    else s
  }

  datatype ReadResult = Data(bytes: seq<byte>) | Eof | Blocked

  function Min(a: nat, b: nat): nat {
    if a < b then a else b
  }

  class RecvStream {
    var expectedOffset: nat
    var buffered: map<nat, seq<byte>>
    var readBuf: seq<byte>
    var finReceived: bool

    function State(): Recv
      reads this
    {
      Recv(expectedOffset, buffered, readBuf, finReceived)
    }

    constructor ()
      ensures State() == EMPTY_RECV
    {
      expectedOffset, buffered, readBuf, finReceived := 0, map[], [], false;
    }

    method HandleStreamFrame(offset: nat, data: seq<byte>, fin: bool)
      modifies this
      ensures State() == HandleFrame(AsWritten, old(State()), offset, data, fin)
    {
      if offset == expectedOffset {
        readBuf := readBuf + data;
        expectedOffset := expectedOffset + |data|;
        ghost var start := State();
        while expectedOffset in buffered
          invariant Drain(AsWritten, State()) == Drain(AsWritten, start)
          invariant finReceived == start.fin
          decreases if expectedOffset in buffered then 1 else 0
        {
          var buf := buffered[expectedOffset];
          readBuf := readBuf + buf;
          expectedOffset := expectedOffset + |buf|;
          buffered := buffered - {expectedOffset};
        }
        if fin {
          finReceived := true;
        }
      } else if offset > expectedOffset {
        buffered := buffered[offset := data];
      }
    }

    /** Read with a buffer of `room` bytes; `Blocked` is the wait for a notification. */
    method Read(room: nat) returns (r: ReadResult)
      modifies this`readBuf
      ensures r.Data? ==> |r.bytes| == Min(room, |old(readBuf)|) && r.bytes + readBuf == old(readBuf)
      ensures GetReadOffset() == old(GetReadOffset()) + if r.Data? then |r.bytes| else 0
      ensures !r.Data? ==> readBuf == old(readBuf) == [] && (r.Eof? <==> finReceived)
      ensures r.Data? <==> old(readBuf) != []
    {
      if |readBuf| > 0 {
        var n := Min(room, |readBuf|);
        r := Data(readBuf[..n]);
        readBuf := readBuf[n..];
      } else if finReceived {
        r := Eof;
      } else {
        r := Blocked;
      }
    }

    function GetReadOffset(): int
      reads this
    {
      expectedOffset - |readBuf|
    }

    method SetReadOffset(offset: nat)
      modifies this
      ensures State() == Recv(offset, map[], [], old(finReceived)) && GetReadOffset() == offset
    {
      readBuf := [];
      expectedOffset := offset;
      buffered := map[];
    }
  }

  // ----- Safety: only ever a prefix of what was written -----

  /** The bytes `d` stand at offset `o` of the stream `w`. */
  predicate IsSlice(w: seq<byte>, o: nat, d: seq<byte>) {
    o + |d| <= |w| && w[o..o + |d|] == d
  }

  /** With `delivered` returned by Read so far, nothing but the first `expected` bytes of `w` has
      been or will be returned, and everything set aside stands where it says. */
  ghost predicate Faithful(s: Recv, delivered: seq<byte>, w: seq<byte>) {
    && s.expected <= |w|
    && delivered + s.readBuf == w[..s.expected]
    && forall k :: k in s.buffered ==> IsSlice(w, k, s.buffered[k])
  }

  /** The read offset is the number of bytes that Read has returned. */
  lemma ReadOffsetIsDelivered(r: RecvStream, delivered: seq<byte>, w: seq<byte>)
    requires Faithful(r.State(), delivered, w)
    ensures r.GetReadOffset() == |delivered|
  {
    assert |delivered + r.readBuf| == |w[..r.expectedOffset]|;
  }

  lemma {:induction false} DrainFaithful(v: Variant, s: Recv, delivered: seq<byte>, w: seq<byte>)
    requires Faithful(s, delivered, w)
    ensures Faithful(Drain(v, s), delivered, w)
    decreases if v.AsWritten? then (if s.expected in s.buffered then 1 else 0) else |s.buffered|
  {
    if s.expected in s.buffered {
      var next := DrainOnce(v, s);
      assert IsSlice(w, s.expected, s.buffered[s.expected]);
      assert w[..next.expected] == w[..s.expected] + s.buffered[s.expected];
      assert v.Repaired? ==> |next.buffered| == |s.buffered.Keys - {s.expected}|;
      DrainFaithful(v, next, delivered, w);
    }
  }

  /** Every frame that is a slice of the stream keeps this, in both variants, in any order and
      however often it comes. */
  lemma HandleFrameFaithful(v: Variant, s: Recv, o: nat, d: seq<byte>, fin: bool, delivered: seq<byte>, w: seq<byte>)
    requires Faithful(s, delivered, w) && IsSlice(w, o, d)
    ensures Faithful(HandleFrame(v, s, o, d, fin), delivered, w)
  {
    if o == s.expected {
      var s1 := s.(expected := o + |d|, readBuf := s.readBuf + d);
      assert w[..o + |d|] == w[..o] + d;
      assert delivered + s1.readBuf == (delivered + s.readBuf) + d;
      DrainFaithful(v, s1, delivered, w);
    }
  }

  lemma FaithfulAsStreamGrows(s: Recv, delivered: seq<byte>, w: seq<byte>, more: seq<byte>)
    requires Faithful(s, delivered, w)
    ensures Faithful(s, delivered, w + more)
  {
    assert (w + more)[..s.expected] == w[..s.expected];
    forall k | k in s.buffered
      ensures IsSlice(w + more, k, s.buffered[k])
    {
      assert (w + more)[k..k + |s.buffered[k]|] == w[k..k + |s.buffered[k]|];
    }
  }

  // ----- Completeness: which arrival orders deliver the whole stream -----

  /** The frames of a stream of `n` bytes: they are not empty, do not overlap and leave no gap. */
  datatype Tiling = Tiling(tiles: map<nat, seq<byte>>, n: nat) {
    predicate Boundary(b: nat) {
      b == n || b in tiles
    }

    function End(o: nat): nat
      requires o in tiles
    {
      o + |tiles[o]|
    }

    ghost predicate Valid() {
      && Boundary(0)
      && (forall o {:trigger End(o)} :: o in tiles ==> o < End(o) <= n && Boundary(End(o)))
      && (forall o, o' {:trigger End(o), o' in tiles} :: o in tiles && o' in tiles && o < o' ==> End(o) <= o')
    }
  }

  /** A stream grows by appending one more frame. */
  lemma ExtendTiling(t: Tiling, d: seq<byte>)
    requires t.Valid() && d != []
    ensures t.n !in t.tiles
    ensures Tiling(t.tiles[t.n := d], t.n + |d|).Valid()
  {
    var t' := Tiling(t.tiles[t.n := d], t.n + |d|);
    forall o | o in t.tiles
      ensures o < t.n
    {
      assert o < t.End(o) <= t.n;
    }
    forall o | o in t'.tiles
      ensures o < t'.End(o) <= t'.n && t'.Boundary(t'.End(o))
      ensures forall o' :: o' in t'.tiles && o < o' ==> t'.End(o) <= o'
    {
      if o != t.n {
        assert t'.End(o) == t.End(o);
      } else {
        assert forall o' :: o' in t.tiles ==> o' < t.End(o') <= t.n;
      }
    }
  }

  /** Everything set aside is a frame of the stream. */
  ghost predicate FromTiles(t: Tiling, s: Recv) {
    forall k :: k in s.buffered ==> k in t.tiles && s.buffered[k] == t.tiles[k]
  }

  /** What holds of the receiver while only these frames arrive. */
  ghost predicate Good(t: Tiling, s: Recv) {
    t.Boundary(s.expected) && s.expected !in s.buffered && FromTiles(t, s)
  }

  /** The frame at `o` need not come again. */
  predicate Held(s: Recv, o: nat) {
    o < s.expected || o in s.buffered
  }

  function Step(v: Variant, t: Tiling, s: Recv, o: nat): Recv
    requires o in t.tiles
  {
    HandleFrame(v, s, o, t.tiles[o], false)
  }

  /** The buffered entry that the drain loop as written throws away when this frame arrives: the
      second of two entries that continue it without a gap. */
  function Discarded(s: Recv, o: nat, d: seq<byte>): Option<nat> {
    if o == s.expected && o + |d| in s.buffered then
      var second := o + |d| + |s.buffered[o + |d|]|;
      if second in s.buffered then Some(second) else None
    else None
  }

  lemma AsWrittenStep(t: Tiling, s: Recv, o: nat)
    requires t.Valid() && Good(t, s) && o in t.tiles
    ensures var s' := Step(AsWritten, t, s, o);
            && Good(t, s')
            && s.expected <= s'.expected
            && Held(s', o)
            && (forall k: nat :: Held(s, k) && Discarded(s, o, t.tiles[o]) != Some(k) ==> Held(s', k))
            && (Discarded(s, o, t.tiles[o]).Some? ==> s'.expected == Discarded(s, o, t.tiles[o]).value)
  {
    if o == s.expected {
      var s1 := s.(expected := t.End(o), readBuf := s.readBuf + t.tiles[o]);
      if s1.expected in s1.buffered {
        var s2 := DrainOnce(AsWritten, s1);
        assert s2.expected == t.End(s1.expected);
        assert Drain(AsWritten, s1) == s2;
      }
    }
  }

  lemma RepairedDrainOnce(t: Tiling, s: Recv)
    requires t.Valid() && FromTiles(t, s) && s.expected in s.buffered
    ensures var s1 := DrainOnce(Repaired, s);
            && t.Boundary(s1.expected) && FromTiles(t, s1)
            && s.expected < s1.expected
            && |s1.buffered| < |s.buffered|
            && (forall k: nat :: Held(s, k) ==> Held(s1, k))
            && (forall o :: o in t.tiles && s.expected <= o < s1.expected ==> o == s.expected)
  {
    var s1 := DrainOnce(Repaired, s);
    assert |s1.buffered| == |s.buffered.Keys - {s.expected}|;
    assert s1.expected == t.End(s.expected);
  }

  lemma {:induction false} RepairedDrain(t: Tiling, s: Recv)
    requires t.Valid() && t.Boundary(s.expected) && FromTiles(t, s)
    ensures var s' := Drain(Repaired, s);
            && Good(t, s')
            && s.expected <= s'.expected
            && (forall k: nat :: Held(s, k) ==> Held(s', k))
            && (forall k :: k in s'.buffered ==> k in s.buffered)
            && (forall o :: o in t.tiles && s.expected <= o < s'.expected ==> o in s.buffered)
    decreases |s.buffered|
  {
    if s.expected in s.buffered {
      var s1 := DrainOnce(Repaired, s);
      RepairedDrainOnce(t, s);
      RepairedDrain(t, s1);
      assert Drain(Repaired, s) == Drain(Repaired, s1);
    }
  }

  lemma RepairedStep(t: Tiling, s: Recv, o: nat)
    requires t.Valid() && Good(t, s) && o in t.tiles
    ensures var s' := Step(Repaired, t, s, o);
            && Good(t, s')
            && s.expected <= s'.expected
            && Held(s', o)
            && (forall k: nat :: Held(s, k) ==> Held(s', k))
  {
    var s' := Step(Repaired, t, s, o);
    if o == s.expected {
      var s1 := s.(expected := t.End(o), readBuf := s.readBuf + t.tiles[o]);
      RepairedDrain(t, s1);
      var d := Drain(Repaired, s1);
      assert s' == d.(fin := s.fin);
      forall k: nat | Held(s, k)
        ensures Held(s', k)
      {
        assert Held(s1, k) && Held(d, k);
      }
    }
  }

  /** StreamImpl.Write never buffers an empty slice, so no frame is empty. */
  ghost predicate NonEmpty(s: Recv) {
    forall k :: k in s.buffered ==> s.buffered[k] != []
  }

  /** Frame by frame, the code as written agrees with the repaired loop on what it delivers exactly
      when it has nothing to discard. */
  lemma StepsAgreeExactly(s: Recv, o: nat, d: seq<byte>, fin: bool)
    requires NonEmpty(s)
    ensures var a, r := HandleFrame(AsWritten, s, o, d, fin), HandleFrame(Repaired, s, o, d, fin);
            && a.readBuf <= r.readBuf && a.expected <= r.expected
            && (a.expected == r.expected && a.readBuf == r.readBuf <==> Discarded(s, o, d).None?)
  {
    if o == s.expected {
      DrainsAgreeExactly(s.(expected := o + |d|, readBuf := s.readBuf + d));
    }
  }

  lemma DrainsAgreeExactly(s: Recv)
    requires NonEmpty(s)
    ensures var a, r := Drain(AsWritten, s), Drain(Repaired, s);
            && a.readBuf <= r.readBuf && a.expected <= r.expected
            && (a.expected == r.expected && a.readBuf == r.readBuf
                <==> s.expected in s.buffered ==> s.expected + |s.buffered[s.expected]| !in s.buffered)
  {
    if s.expected in s.buffered {
      var r := DrainOnce(Repaired, s);
      FirstRound(s);
      SecondRound(r) by {
        assert forall k :: k in r.buffered ==> r.buffered[k] == s.buffered[k];
      }
    }
  }

  /** As written, the drain loop makes one round. */
  lemma FirstRound(s: Recv)
    requires s.expected in s.buffered && s.buffered[s.expected] != []
    ensures var a, r := DrainOnce(AsWritten, s), DrainOnce(Repaired, s);
            && a.expected == r.expected > s.expected && a.readBuf == r.readBuf
            && Drain(AsWritten, s) == a && Drain(Repaired, s) == Drain(Repaired, r)
            && (r.expected in r.buffered <==> r.expected in s.buffered)
  {
  }

  lemma SecondRound(r: Recv)
    requires NonEmpty(r)
    ensures r.readBuf <= Drain(Repaired, r).readBuf
    ensures r.expected <= Drain(Repaired, r).expected
    ensures r.expected == Drain(Repaired, r).expected <==> r.expected !in r.buffered
    ensures r.expected !in r.buffered ==> Drain(Repaired, r) == r
  {
    if r.expected in r.buffered {
      DrainExtends(DrainOnce(Repaired, r));
    }
  }

  lemma {:induction false} DrainExtends(s: Recv)
    ensures s.readBuf <= Drain(Repaired, s).readBuf && s.expected <= Drain(Repaired, s).expected
    decreases |s.buffered|
  {
    if s.expected in s.buffered {
      var s1 := DrainOnce(Repaired, s);
      assert |s1.buffered| == |s.buffered.Keys - {s.expected}|;
      DrainExtends(s1);
    }
  }

  predicate Arrivals(t: Tiling, arrivals: seq<nat>) {
    forall i :: 0 <= i < |arrivals| ==> arrivals[i] in t.tiles
  }

  /** The receiver after these frames, from the start of the stream. */
  function Run(v: Variant, t: Tiling, arrivals: seq<nat>): Recv
    requires Arrivals(t, arrivals)
    decreases |arrivals|
  {
    if arrivals == [] then EMPTY_RECV
    else Step(v, t, Run(v, t, arrivals[..|arrivals| - 1]), arrivals[|arrivals| - 1])
  }

  lemma RunSnoc(v: Variant, t: Tiling, arrivals: seq<nat>, i: nat)
    requires Arrivals(t, arrivals) && i < |arrivals|
    ensures Run(v, t, arrivals[..i + 1]) == Step(v, t, Run(v, t, arrivals[..i]), arrivals[i])
  {
    assert arrivals[..i + 1][..i] == arrivals[..i];
  }

  /** Nothing is held after a frame but what was held before and that frame. */
  lemma StepHoldsOnly(v: Variant, t: Tiling, s: Recv, o: nat)
    requires t.Valid() && Good(t, s) && o in t.tiles
    ensures forall k :: k in t.tiles && Held(Step(v, t, s, o), k) ==> Held(s, k) || k == o
  {
    if o == s.expected {
      var s1 := s.(expected := t.End(o), readBuf := s.readBuf + t.tiles[o]);
      assert forall k :: k in t.tiles && k < t.End(o) ==> k <= o;
      if v.Repaired? {
        RepairedDrain(t, s1);
      } else if s1.expected in s1.buffered {
        var second := s1.expected;
        assert Drain(AsWritten, s1) == DrainOnce(AsWritten, s1);
        assert forall k :: k in t.tiles && k < t.End(second) ==> k <= second;
        assert forall k :: k in t.tiles && second > k ==> k <= o;
      }
    }
  }

  /** Only frames that arrived are held, and all below `expected` did. */
  ghost predicate FromArrivals(t: Tiling, s: Recv, seen: seq<nat>) {
    forall o :: o in t.tiles && Held(s, o) ==> o in seen
  }

  lemma StepFromArrivals(v: Variant, t: Tiling, s: Recv, seen: seq<nat>, o: nat)
    requires t.Valid() && Good(t, s) && FromArrivals(t, s, seen) && o in t.tiles
    ensures Good(t, Step(v, t, s, o)) && FromArrivals(t, Step(v, t, s, o), seen + [o])
  {
    hide Step, Good;
    StepHoldsOnly(v, t, s, o);
    if v.Repaired? {
      RepairedStep(t, s, o);
    } else {
      AsWrittenStep(t, s, o);
    }
  }

  lemma {:induction false} RunGood(v: Variant, t: Tiling, arrivals: seq<nat>)
    requires t.Valid() && Arrivals(t, arrivals)
    ensures Good(t, Run(v, t, arrivals)) && FromArrivals(t, Run(v, t, arrivals), arrivals)
    decreases |arrivals|
  {
    if arrivals != [] {
      var before := arrivals[..|arrivals| - 1];
      RunGood(v, t, before);
      StepFromArrivals(v, t, Run(v, t, before), before, arrivals[|arrivals| - 1]);
      assert before + [arrivals[|arrivals| - 1]] == arrivals;
    }
  }

  /** The tiles are the bytes of this stream. */
  ghost predicate TilesOf(t: Tiling, w: seq<byte>) {
    t.n == |w| && forall o :: o in t.tiles ==> IsSlice(w, o, t.tiles[o])
  }

  /** Whatever arrived, the bytes readable are the first `expected` bytes of the stream. */
  lemma {:induction false} RunFaithful(v: Variant, t: Tiling, arrivals: seq<nat>, w: seq<byte>)
    requires Arrivals(t, arrivals) && TilesOf(t, w)
    ensures Faithful(Run(v, t, arrivals), [], w)
    decreases |arrivals|
  {
    if arrivals != [] {
      var before, o := arrivals[..|arrivals| - 1], arrivals[|arrivals| - 1];
      RunFaithful(v, t, before, w);
      HandleFrameFaithful(v, Run(v, t, before), o, t.tiles[o], false, [], w);
    }
  }

  predicate AllArrived(t: Tiling, arrivals: seq<nat>) {
    forall o :: o in t.tiles ==> o in arrivals
  }

  lemma CompleteWhenAllHeld(t: Tiling, s: Recv)
    requires t.Valid() && Good(t, s) && forall o :: o in t.tiles ==> Held(s, o)
    ensures s.expected == t.n
  {
    assert s.expected in t.tiles ==> !Held(s, s.expected);
  }

  lemma {:induction false} RepairedHolds(t: Tiling, arrivals: seq<nat>)
    requires t.Valid() && Arrivals(t, arrivals)
    ensures forall o :: o in arrivals ==> Held(Run(Repaired, t, arrivals), o)
    decreases |arrivals|
  {
    if arrivals != [] {
      var before, o := arrivals[..|arrivals| - 1], arrivals[|arrivals| - 1];
      RepairedHolds(t, before);
      RunGood(Repaired, t, before);
      RepairedStep(t, Run(Repaired, t, before), o);
      assert forall k :: k in arrivals ==> k in before || k == o;
    }
  }

  /** Repaired: the whole stream is delivered exactly when every frame arrived, in any order and
      with any repetitions. */
  lemma RepairedCompletesExactly(t: Tiling, arrivals: seq<nat>)
    requires t.Valid() && Arrivals(t, arrivals)
    ensures Run(Repaired, t, arrivals).expected == t.n <==> AllArrived(t, arrivals)
  {
    RunGood(Repaired, t, arrivals);
    if AllArrived(t, arrivals) {
      RepairedHolds(t, arrivals);
      CompleteWhenAllHeld(t, Run(Repaired, t, arrivals));
    }
    if Run(Repaired, t, arrivals).expected == t.n {
      AllBelowEnd(t, Run(Repaired, t, arrivals), arrivals);
    }
  }

  lemma AllBelowEnd(t: Tiling, s: Recv, arrivals: seq<nat>)
    requires t.Valid() && s.expected == t.n && FromArrivals(t, s, arrivals)
    ensures AllArrived(t, arrivals)
  {
    forall o | o in t.tiles
      ensures o in arrivals
    {
      assert o < t.End(o) <= t.n;
      assert Held(s, o);
    }
  }

  /** The frame thrown away on the i-th arrival, if any. */
  function DiscardedAt(t: Tiling, arrivals: seq<nat>, i: nat): Option<nat>
    requires Arrivals(t, arrivals) && i < |arrivals|
  {
    Discarded(Run(AsWritten, t, arrivals[..i]), arrivals[i], t.tiles[arrivals[i]])
  }

  /** Every frame thrown away comes again later. */
  predicate DiscardsComeAgain(t: Tiling, arrivals: seq<nat>)
    requires Arrivals(t, arrivals)
  {
    forall i :: 0 <= i < |arrivals| && DiscardedAt(t, arrivals, i).Some? ==>
                  DiscardedAt(t, arrivals, i).value in arrivals[i + 1..]
  }

  lemma {:induction false} HeldOrToCome(t: Tiling, arrivals: seq<nat>, i: nat)
    requires t.Valid() && Arrivals(t, arrivals) && DiscardsComeAgain(t, arrivals) && i <= |arrivals|
    ensures forall o :: o in arrivals ==> Held(Run(AsWritten, t, arrivals[..i]), o) || o in arrivals[i..]
  {
    if i > 0 {
      HeldOrToCome(t, arrivals, i - 1);
      forall o | o in arrivals
        ensures Held(Run(AsWritten, t, arrivals[..i]), o) || o in arrivals[i..]
      {
        HeldOrToComeStep(t, arrivals, i - 1, o);
      }
    }
  }

  lemma HeldOrToComeStep(t: Tiling, arrivals: seq<nat>, i: nat, o: nat)
    requires t.Valid() && Arrivals(t, arrivals) && DiscardsComeAgain(t, arrivals) && i < |arrivals|
    requires Held(Run(AsWritten, t, arrivals[..i]), o) || o in arrivals[i..]
    ensures Held(Run(AsWritten, t, arrivals[..i + 1]), o) || o in arrivals[i + 1..]
  {
    hide Step, Run, Good, Held, Discarded, FromArrivals;
    RunGood(AsWritten, t, arrivals[..i]);
    RunSnoc(AsWritten, t, arrivals, i);
    AsWrittenStep(t, Run(AsWritten, t, arrivals[..i]), arrivals[i]);
    assert arrivals[i..] == [arrivals[i]] + arrivals[i + 1..];
    if DiscardedAt(t, arrivals, i) == Some(o) {
      assert o in arrivals[i + 1..];
    }
  }

  /** Only the frame it waits for moves the receiver. */
  lemma ExpectedUnlessHit(t: Tiling, s: Recv, o: nat)
    requires o in t.tiles
    ensures o != s.expected ==> Step(AsWritten, t, s, o).expected == s.expected
  {
  }

  lemma {:induction false} StuckAtDiscard(t: Tiling, arrivals: seq<nat>, i: nat, j: nat)
    requires t.Valid() && Arrivals(t, arrivals) && i < j <= |arrivals|
    requires DiscardedAt(t, arrivals, i).Some? && DiscardedAt(t, arrivals, i).value !in arrivals[i + 1..]
    ensures Run(AsWritten, t, arrivals[..j]).expected == DiscardedAt(t, arrivals, i).value
    decreases j
  {
    hide Step, Run, Good, Held, FromArrivals, Discarded;
    var s, o := Run(AsWritten, t, arrivals[..j - 1]), arrivals[j - 1];
    RunGood(AsWritten, t, arrivals[..j - 1]);
    RunSnoc(AsWritten, t, arrivals, j - 1);
    AsWrittenStep(t, s, o);
    ExpectedUnlessHit(t, s, o);
    if j > i + 1 {
      StuckAtDiscard(t, arrivals, i, j - 1);
      assert o == arrivals[i + 1..][j - 1 - (i + 1)];
    }
  }

  /** As written: the whole stream is delivered exactly when every frame arrived and every frame
      thrown away arrived once more afterwards. */
  lemma AsWrittenCompletesExactly(t: Tiling, arrivals: seq<nat>)
    requires t.Valid() && Arrivals(t, arrivals)
    ensures Run(AsWritten, t, arrivals).expected == t.n
       <==> AllArrived(t, arrivals) && DiscardsComeAgain(t, arrivals)
  {
    var end := Run(AsWritten, t, arrivals);
    RunGood(AsWritten, t, arrivals);
    assert arrivals[..|arrivals|] == arrivals;
    if end.expected == t.n {
      AllBelowEnd(t, end, arrivals);
    }
    if !DiscardsComeAgain(t, arrivals) {
      var i :| 0 <= i < |arrivals| && DiscardedAt(t, arrivals, i).Some?
               && DiscardedAt(t, arrivals, i).value !in arrivals[i + 1..];
      StuckAtDiscard(t, arrivals, i, |arrivals|);
      DiscardIsATile(t, arrivals, i);
    } else if AllArrived(t, arrivals) {
      HeldOrToCome(t, arrivals, |arrivals|);
      CompleteWhenAllHeld(t, end);
    }
  }

  lemma DiscardIsATile(t: Tiling, arrivals: seq<nat>, i: nat)
    requires t.Valid() && Arrivals(t, arrivals) && i < |arrivals| && DiscardedAt(t, arrivals, i).Some?
    ensures DiscardedAt(t, arrivals, i).value < t.n
    ensures DiscardedAt(t, arrivals, i).value in arrivals[..i]
  {
    var s := Run(AsWritten, t, arrivals[..i]);
    RunGood(AsWritten, t, arrivals[..i]);
    var x := DiscardedAt(t, arrivals, i).value;
    assert x in s.buffered && x in t.tiles;
    assert x < t.End(x) && Held(s, x);
  }

  /** With every frame sent once, as without loss, the condition is that nothing is ever thrown
      away. */
  lemma AsWrittenOnceEach(t: Tiling, arrivals: seq<nat>)
    requires t.Valid() && Arrivals(t, arrivals) && AllArrived(t, arrivals)
    requires forall i, j :: 0 <= i < j < |arrivals| ==> arrivals[i] != arrivals[j]
    ensures Run(AsWritten, t, arrivals).expected == t.n
       <==> forall i :: 0 <= i < |arrivals| ==> DiscardedAt(t, arrivals, i).None?
  {
    AsWrittenCompletesExactly(t, arrivals);
    forall i | 0 <= i < |arrivals| && DiscardedAt(t, arrivals, i).Some?
      ensures DiscardedAt(t, arrivals, i).value !in arrivals[i + 1..]
    {
      var x := DiscardedAt(t, arrivals, i).value;
      DiscardIsATile(t, arrivals, i);
      var k :| 0 <= k < i && arrivals[..i][k] == x;
      assert forall m :: i < m < |arrivals| ==> arrivals[m] != arrivals[k];
    }
  }

  const THREE := Tiling(map[0 := [10], 1 := [11], 2 := [12]], 3)

  lemma ThreeIsATiling()
    ensures THREE.Valid()
  {
    assert forall o :: o in THREE.tiles ==> THREE.End(o) == o + 1;
  }

  /** Three one-byte frames arriving as 1, 2, 0: the third byte is thrown away. */
  lemma ThreeFramesOutOfOrder()
    ensures THREE.Valid() && Arrivals(THREE, [1, 2, 0]) && AllArrived(THREE, [1, 2, 0])
    ensures Run(AsWritten, THREE, [1, 2, 0]).readBuf == [10, 11]
    ensures Run(Repaired, THREE, [1, 2, 0]).expected == 3
  {
    var order := [1, 2, 0];
    ThreeIsATiling();
    RunSnoc(AsWritten, THREE, order, 0);
    RunSnoc(AsWritten, THREE, order, 1);
    RunSnoc(AsWritten, THREE, order, 2);
    assert order[..0] == [] && order[..3] == order;
    var s2 := Run(AsWritten, THREE, order[..2]);
    assert s2 == Recv(0, map[1 := [11], 2 := [12]], [], false);
    LastOfThree();
    RepairedCompletesExactly(THREE, order);
  }

  lemma LastOfThree()
    ensures Step(AsWritten, THREE, Recv(0, map[1 := [11], 2 := [12]], [], false), 0).readBuf == [10, 11]
  {
    var s3 := Recv(1, map[1 := [11], 2 := [12]], [10], false);
    var s4 := DrainOnce(AsWritten, s3);
    assert s4.readBuf == [10, 11] && s4.expected == 2;
    assert Drain(AsWritten, s3) == s4;
    assert [] + THREE.tiles[0] == [10];
  }

  // ----- The end of the stream -----

  datatype Piece = Piece(offset: nat, data: seq<byte>, fin: bool)

  function Handled(v: Variant, s: Recv, pieces: seq<Piece>): Recv
    decreases |pieces|
  {
    if pieces == [] then s
    else
      var p := pieces[|pieces| - 1];
      HandleFrame(v, Handled(v, s, pieces[..|pieces| - 1]), p.offset, p.data, p.fin)
  }

  /** The i-th frame carries the mark and comes in its turn. */
  predicate EndsAt(v: Variant, s: Recv, pieces: seq<Piece>, i: nat) {
    i < |pieces| && pieces[i].fin && pieces[i].offset == Handled(v, s, pieces[..i]).expected
  }

  /** The end is seen exactly when a frame that carries the mark arrives in its turn; on one that arrives
      early the mark is lost. */
  lemma {:induction false} EndSeenExactly(v: Variant, s: Recv, pieces: seq<Piece>)
    ensures Handled(v, s, pieces).fin <==> s.fin || exists i :: EndsAt(v, s, pieces, i)
    decreases |pieces|
  {
    if pieces != [] {
      var n := |pieces| - 1;
      EndSeenExactly(v, s, pieces[..n]);
      EndStep(v, Handled(v, s, pieces[..n]), pieces[n]);
      forall i: nat | i < n
        ensures EndsAt(v, s, pieces[..n], i) == EndsAt(v, s, pieces, i)
      {
        assert pieces[..n][..i] == pieces[..i];
      }
      assert EndsAt(v, s, pieces, n) <==> pieces[n].fin && pieces[n].offset == Handled(v, s, pieces[..n]).expected;
      hide HandleFrame;
      if exists i :: EndsAt(v, s, pieces, i) {
        var i: nat :| EndsAt(v, s, pieces, i);
        assert i < n ==> EndsAt(v, s, pieces[..n], i);
      }
      if exists i :: EndsAt(v, s, pieces[..n], i) {
        var i: nat :| EndsAt(v, s, pieces[..n], i);
        assert EndsAt(v, s, pieces, i);
      }
    }
  }

  lemma EndStep(v: Variant, s: Recv, p: Piece)
    ensures HandleFrame(v, s, p.offset, p.data, p.fin).fin <==> s.fin || (p.fin && p.offset == s.expected)
  {
  }
}
