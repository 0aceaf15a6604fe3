/** The split file transfer of examples/file_transfer: the server writes the even chunks, the relay
    the odd ones, each at offsets of its own reckoning, into one stream the client cuts up again. */
module Transfer {
  import opened Bytes
  import opened Common
  import opened RecvStreams

  const CHUNK_SIZE: nat := 819200
  const WINDOW_SIZE: nat := 10 * 1024 * 1024 / CHUNK_SIZE
  const MESSAGE_HEADER: nat := 12

  lemma WindowSizeIsTwelve()
    ensures WINDOW_SIZE == 12
  {
  }

  /** A chunked file; sizes fit the 8-byte index and 4-byte length of a message. */
  datatype File = File(bytes: seq<byte>, chunkSize: nat) {
    predicate Valid() {
      0 < chunkSize < U32_LIMIT && |bytes| < U64_LIMIT - chunkSize
    }

    function TotalChunks(): nat
      requires Valid()
    {
      (|bytes| + chunkSize - 1) / chunkSize
    }

    /** The size the server and the relay compute for chunk `j`. */
    function ChunkLength(j: nat): int {
      if j * chunkSize + chunkSize > |bytes| then |bytes| - j * chunkSize else chunkSize
    }
  }

  lemma ChunkFacts(f: File, j: nat)
    requires f.Valid() && j < f.TotalChunks()
    ensures 0 < f.ChunkLength(j) <= f.chunkSize
    ensures j * f.chunkSize + f.ChunkLength(j) <= |f.bytes|
    ensures j < U64_LIMIT
    ensures j + 1 < f.TotalChunks() ==> j * f.chunkSize + f.ChunkLength(j) == (j + 1) * f.chunkSize
    ensures j + 1 == f.TotalChunks() ==> j * f.chunkSize + f.ChunkLength(j) == |f.bytes|
  {
    var n, c := f.TotalChunks(), f.chunkSize;
    DivisionBounds(|f.bytes| + c - 1, c);
    ChunkBounds(|f.bytes|, c, n, j);
  }

  lemma ChunkBounds(size: nat, c: nat, n: nat, j: nat)
    requires c > 0 && j < n && n * c <= size + c - 1 < n * c + c
    ensures j * c < size && j <= size
    ensures j + 1 < n ==> (j + 1) * c == j * c + c < size
    ensures j + 1 == n ==> j * c + c >= size
  {
    MulLe(j + 1, n, c);
    MulLe(j, n, c);
    if j + 1 < n {
      MulLe(j + 2, n, c);
      MulLe(j + 1, n, c);
    }
    MulLe(1, c, j);
  }

  lemma DivisionBounds(a: nat, c: nat)
    requires c > 0
    ensures a / c * c <= a < a / c * c + c
  {
  }

  lemma MulLe(a: nat, b: nat, c: nat)
    ensures a <= b ==> a * c <= b * c
    ensures (a + 1) * c == a * c + c
  {
    if a <= b {
      assert (b - a) * c >= 0;
    }
  }

  function Chunk(f: File, j: nat): (d: seq<byte>)
    requires f.Valid() && j < f.TotalChunks()
    ensures |d| == f.ChunkLength(j) > 0
  {
    ChunkFacts(f, j);
    f.bytes[j * f.chunkSize..j * f.chunkSize + f.ChunkLength(j)]
  }

  /** Index, length and data, as both senders lay a chunk out. */
  function Message(f: File, j: nat): (m: seq<byte>)
    requires f.Valid() && j < f.TotalChunks()
    ensures |m| == MESSAGE_HEADER + f.ChunkLength(j)
  {
    ChunkFacts(f, j);
    U64(j) + U32(|Chunk(f, j)|) + Chunk(f, j)
  }

  /** Messages [from, to) one after the other. */
  function Messages(f: File, from: nat, end: nat): seq<byte>
    requires f.Valid() && from <= end <= f.TotalChunks()
    decreases end - from
  {
    if from == end then [] else Message(f, from) + Messages(f, from + 1, end)
  }

  lemma {:induction false} MessagesSplit(f: File, from: nat, mid: nat, end: nat)
    requires f.Valid() && from <= mid <= end <= f.TotalChunks()
    ensures Messages(f, from, end) == Messages(f, from, mid) + Messages(f, mid, end)
    decreases mid - from
  {
    if from < mid {
      MessagesSplit(f, from + 1, mid, end);
    }
  }

  /** The offset of message `j` when message `start` stands at `base`. */
  function OffsetOf(f: File, base: nat, start: nat, j: nat): nat
    requires f.Valid() && start <= j <= f.TotalChunks()
  {
    base + |Messages(f, start, j)|
  }

  lemma OffsetNext(f: File, base: nat, start: nat, j: nat)
    requires f.Valid() && start <= j < f.TotalChunks()
    ensures OffsetOf(f, base, start, j + 1) == OffsetOf(f, base, start, j) + MESSAGE_HEADER + f.ChunkLength(j)
  {
    MessagesSplit(f, start, j, j + 1);
    assert Messages(f, j, j + 1) == Message(f, j) + Messages(f, j + 1, j + 1);
  }

  // ----- The two senders -----

  /** A write at a stream offset. */
  datatype Write = Write(offset: nat, payload: seq<byte>)

  /** The writes that put the chunks of one parity in [from, to) where they belong. */
  function Plan(f: File, base: nat, start: nat, from: nat, end: nat, parity: nat): seq<Write>
    requires f.Valid() && start <= from <= end <= f.TotalChunks()
    decreases end - from
  {
    if from == end then []
    else
      (if from % 2 == parity then [Write(OffsetOf(f, base, start, from), Message(f, from))] else [])
      + Plan(f, base, start, from + 1, end, parity)
  }

  /** The relay's loop from chunk `i` on, with its own running offset. */
  function RelayFrom(f: File, i: nat, end: nat, current: nat): seq<Write>
    requires f.Valid() && end <= f.TotalChunks()
    decreases end - i
  {
    if i >= end then []
    else
      (if i % 2 == 0 then [] else [Write(current, Message(f, i))])
      + RelayFrom(f, i + 1, end, current + MESSAGE_HEADER + |Chunk(f, i)|)
  }

  /** Index of the first odd chunk of a window, if there is one. */
  function FirstOdd(start: nat, end: nat): Option<nat> {
    if start >= end then None
    else if start % 2 != 0 then Some(start)
    else if start + 1 < end then Some(start + 1)
    else None
  }

  /** The server's reckoning: an offset for every chunk of the window, and the one after it. */
  method PlanOffsets(f: File, start: nat, end: nat, writeOffset: nat)
    returns (chunkOffsets: map<nat, nat>, currentOffset: nat)
    requires f.Valid() && start <= end <= f.TotalChunks()
    ensures currentOffset == OffsetOf(f, writeOffset, start, end)
    ensures forall k :: start <= k < end ==> k in chunkOffsets && chunkOffsets[k] == OffsetOf(f, writeOffset, start, k)
  {
    chunkOffsets := map[];
    currentOffset := writeOffset;
    for j := start to end
      invariant currentOffset == OffsetOf(f, writeOffset, start, j)
      invariant forall k :: start <= k < j ==>
                              k in chunkOffsets && chunkOffsets[k] == OffsetOf(f, writeOffset, start, k)
    {
      ChunkFacts(f, j);
      OffsetNext(f, writeOffset, start, j);
      chunkOffsets := chunkOffsets[j := currentOffset];
      var dataSize := f.chunkSize;
      var fileOffset := j * f.chunkSize;
      if fileOffset + f.chunkSize > |f.bytes| {
        dataSize := |f.bytes| - fileOffset;
      }
      currentOffset := currentOffset + (MESSAGE_HEADER + dataSize);
    }
  }

  method FindFirstOdd(start: nat, end: nat) returns (odd: Option<nat>)
    requires start <= end
    ensures odd == FirstOdd(start, end)
    ensures odd.Some? ==> start <= odd.value < end && odd.value % 2 == 1
    ensures forall j :: start <= j < (if odd.Some? then odd.value else end) ==> j % 2 == 0
  {
    odd := None;
    for j := start to end
      invariant j > start ==> start % 2 == 0 && j == start + 1
    {
      if j % 2 != 0 {
        return Some(j);
      }
    }
  }

  lemma PlanStep(f: File, base: nat, start: nat, j: nat, end: nat, parity: nat, done: seq<Write>)
    requires f.Valid() && start <= j < end <= f.TotalChunks()
    ensures var w := if j % 2 == parity then [Write(OffsetOf(f, base, start, j), Message(f, j))] else [];
            done + Plan(f, base, start, j, end, parity) == (done + w) + Plan(f, base, start, j + 1, end, parity)
  {
  }

  /** The server's part of one window: the start offset it sends to the relay, its own writes, and
      the offset it leaves the stream at. */
  method ServerWindow(f: File, start: nat, end: nat, writeOffset: nat)
    returns (relayStart: Option<nat>, writes: seq<Write>, finalOffset: nat)
    requires f.Valid() && start <= end <= f.TotalChunks()
    ensures writes == Plan(f, writeOffset, start, start, end, 0)
    ensures finalOffset == OffsetOf(f, writeOffset, start, end)
    ensures relayStart == var odd := FirstOdd(start, end);
                          if odd.None? then None else Some(OffsetOf(f, writeOffset, start, odd.value))
  {
    var chunkOffsets, currentOffset := PlanOffsets(f, start, end, writeOffset);
    var firstOdd := FindFirstOdd(start, end);
    relayStart := if firstOdd.Some? then Some(chunkOffsets[firstOdd.value]) else None;
    writes := [];
    ghost var all := Plan(f, writeOffset, start, start, end, 0);
    assert [] + all == all;
    for j := start to end
      invariant writes + Plan(f, writeOffset, start, j, end, 0) == all
    {
      PlanStep(f, writeOffset, start, j, end, 0, writes);
      if j % 2 != 0 {
        assert writes + [] == writes;
        continue;
      }
      var payload := BuildMessage(f, j);
      writes := writes + [Write(chunkOffsets[j], payload)];
    }
    assert writes + [] == writes;
    finalOffset := currentOffset;
  }

  /** Reading a chunk from the file and framing it, the same in both programs. */
  method BuildMessage(f: File, j: nat) returns (payload: seq<byte>)
    requires f.Valid() && j < f.TotalChunks()
    ensures payload == Message(f, j)
  {
    ChunkFacts(f, j);
    var dataSize := f.chunkSize;
    var fileOffset := j * f.chunkSize;
    if fileOffset + f.chunkSize > |f.bytes| {
      dataSize := |f.bytes| - fileOffset;
    }
    var chunkData := f.bytes[fileOffset..fileOffset + dataSize];
    payload := U64(j) + U32(|chunkData|) + chunkData;
  }

  /** The relay's part of one window, for step 2. */
  method RelayWindow(f: File, startChunk: nat, endChunk: nat, startOffset: nat) returns (writes: seq<Write>)
    requires f.Valid() && endChunk <= f.TotalChunks()
    ensures writes == RelayFrom(f, startChunk + 1, endChunk, startOffset)
  {
    var currentOffset: nat := startOffset;
    writes := [];
    var i := startChunk + 1;
    ghost var all := RelayFrom(f, i, endChunk, currentOffset);
    assert [] + all == all;
    hide Message, Chunk, RelayFrom;
    while i < endChunk
      invariant writes + RelayFrom(f, i, endChunk, currentOffset) == all
    {
      ChunkFacts(f, i);
      var dataSize := f.chunkSize;
      var fileOffset := i * f.chunkSize;
      if fileOffset + f.chunkSize > |f.bytes| {
        dataSize := |f.bytes| - fileOffset;
      }
      var chunkTotalSize := MESSAGE_HEADER + dataSize;
      assert dataSize == |Chunk(f, i)|;
      RelayStep(f, i, endChunk, currentOffset, writes);
      if i % 2 == 0 {
        assert writes + [] == writes;
      } else {
        var payload := BuildMessage(f, i);
        writes := writes + [Write(currentOffset, payload)];
      }
      currentOffset := currentOffset + chunkTotalSize;
      i := i + 1;
    }
    RelayEnd(f, i, endChunk, currentOffset);
    assert writes + [] == writes;
  }

  lemma RelayEnd(f: File, i: nat, end: nat, current: nat)
    requires f.Valid() && end <= f.TotalChunks() && i >= end
    ensures RelayFrom(f, i, end, current) == []
  {
  }

  lemma RelayStep(f: File, i: nat, end: nat, current: nat, done: seq<Write>)
    requires f.Valid() && i < end <= f.TotalChunks()
    ensures var w := if i % 2 == 0 then [] else [Write(current, Message(f, i))];
            done + RelayFrom(f, i, end, current)
            == (done + w) + RelayFrom(f, i + 1, end, current + MESSAGE_HEADER + |Chunk(f, i)|)
  {
  }

  // ----- Their agreement -----

  lemma {:induction false} RelayFollowsPlan(f: File, base: nat, start: nat, i: nat, end: nat)
    requires f.Valid() && start <= i <= end <= f.TotalChunks()
    ensures RelayFrom(f, i, end, OffsetOf(f, base, start, i)) == Plan(f, base, start, i, end, 1)
    decreases end - i
  {
    if i < end {
      OffsetNext(f, base, start, i);
      RelayFollowsPlan(f, base, start, i + 1, end);
    }
  }

  lemma {:induction false} RelayCount(f: File, base: nat, start: nat, i: nat, end: nat, current: nat)
    requires f.Valid() && start <= i <= end <= f.TotalChunks()
    ensures |RelayFrom(f, i, end, current)| == |Plan(f, base, start, i, end, 1)|
    decreases end - i
  {
    if i < end {
      RelayCount(f, base, start, i + 1, end, current + MESSAGE_HEADER + |Chunk(f, i)|);
    }
  }

  /** What the relay does with the command for a window: nothing without one. */
  function RelayPart(f: File, base: nat, start: nat, end: nat): seq<Write>
    requires f.Valid() && start <= end <= f.TotalChunks()
  {
    var odd := FirstOdd(start, end);
    if odd.None? then [] else RelayFrom(f, start + 1, end, OffsetOf(f, base, start, odd.value))
  }

  /** The relay writes exactly the odd chunks of a window at the server's offsets if and only if the
      window starts with an even chunk or is empty. */
  lemma RelayAgreesExactly(f: File, base: nat, start: nat, end: nat)
    requires f.Valid() && start <= end <= f.TotalChunks()
    ensures RelayPart(f, base, start, end) == Plan(f, base, start, start, end, 1) <==> start % 2 == 0 || start == end
  {
    if start == end {
      assert Plan(f, base, start, start, end, 1) == [];
    } else if start % 2 == 0 {
      assert Plan(f, base, start, start, end, 1) == [] + Plan(f, base, start, start + 1, end, 1);
      RelayFollowsPlan(f, base, start, start + 1, end);
    } else {
      RelayCount(f, base, start, start + 1, end, OffsetOf(f, base, start, start));
      assert |Plan(f, base, start, start, end, 1)| == 1 + |Plan(f, base, start, start + 1, end, 1)|;
    }
  }

  /** The windows of a transfer: start and end chunk of window `i`. */
  function WindowStart(f: File, windowSize: nat, i: nat): nat {
    i * windowSize
  }

  function TotalWindows(f: File, windowSize: nat): nat
    requires f.Valid() && windowSize > 0
  {
    (f.TotalChunks() + windowSize - 1) / windowSize
  }

  function LastWindow(f: File, windowSize: nat): nat
    requires f.Valid() && windowSize > 0
  {
    var last := f.TotalChunks() % windowSize;
    if last == 0 && f.TotalChunks() > 0 then windowSize else last
  }

  function WindowEnd(f: File, windowSize: nat, i: nat): nat
    requires f.Valid() && windowSize > 0
  {
    WindowStart(f, windowSize, i) +
    if i + 1 == TotalWindows(f, windowSize) then LastWindow(f, windowSize) else windowSize
  }

  /** Windows follow one another without gap and end with the last chunk. */
  lemma WindowFacts(f: File, windowSize: nat, i: nat)
    requires f.Valid() && windowSize > 0 && i < TotalWindows(f, windowSize)
    ensures WindowStart(f, windowSize, i) < WindowEnd(f, windowSize, i) <= f.TotalChunks()
    ensures i + 1 < TotalWindows(f, windowSize) ==> WindowEnd(f, windowSize, i) == WindowStart(f, windowSize, i + 1)
    ensures i + 1 == TotalWindows(f, windowSize) ==> WindowEnd(f, windowSize, i) == f.TotalChunks()
  {
    var n, w, k := f.TotalChunks(), windowSize, TotalWindows(f, windowSize);
    DivisionBounds(n + w - 1, w);
    assert n == n / w * w + n % w && n % w < w;
    WindowBounds(n, w, k, n / w, n % w, i);
  }

  lemma WindowBounds(n: nat, w: nat, k: nat, q: nat, r: nat, i: nat)
    requires k * w <= n + w - 1 < k * w + w && n == q * w + r && r < w && i < k
    ensures var end := i * w + if i + 1 < k then w else if r == 0 && n > 0 then w else r;
            && i * w < end <= n
            && (if i + 1 < k then end == (i + 1) * w else end == n)
  {
    MulLe(k - 1, k, w);
    assert (k - 1) * w < n <= k * w;
    MulLe(i, k, w);
    if i + 1 < k {
      MulLe(i + 1, k - 1, w);
    } else {
      LastWindowCloses(n, w, k, q, r);
    }
  }

  lemma LastWindowCloses(n: nat, w: nat, k: nat, q: nat, r: nat)
    requires k > 0 && (k - 1) * w < n <= k * w && n == q * w + r && r < w
    ensures (k - 1) * w + (if r == 0 then w else r) == n
  {
    MulLe(k - 1, k, w);
    MulLe(q, k - 1, w);
    MulLe(q + 1, k - 1, w);
    MulLe(k, q, w);
    MulLe(k + 1, q, w);
    assert q == if r == 0 then k else k - 1;
  }

  /** Every window of the transfer agrees exactly when the window size is even or one window is
      enough. The program's windows hold 12 chunks. */
  lemma AllWindowsAgreeExactly(f: File, windowSize: nat, base: nat)
    requires f.Valid() && windowSize > 0
    ensures (forall i :: 0 <= i < TotalWindows(f, windowSize) ==> WindowAgrees(f, windowSize, base, i))
       <==> windowSize % 2 == 0 || TotalWindows(f, windowSize) <= 1
  {
    var k := TotalWindows(f, windowSize);
    forall i | 0 <= i < k
      ensures WindowAgrees(f, windowSize, base, i) <==> WindowStart(f, windowSize, i) % 2 == 0
    {
      WindowFacts(f, windowSize, i);
      RelayAgreesExactly(f, base, WindowStart(f, windowSize, i), WindowEnd(f, windowSize, i));
    }
    if windowSize % 2 == 0 {
      forall i | 0 <= i < k
        ensures WindowStart(f, windowSize, i) % 2 == 0
      {
        EvenMultiple(i, windowSize);
      }
    } else if k > 1 {
      assert WindowStart(f, windowSize, 1) == windowSize;
      assert !WindowAgrees(f, windowSize, base, 1);
    }
  }

  lemma EvenMultiple(i: nat, w: nat)
    requires w % 2 == 0
    ensures i * w % 2 == 0
  {
    assert i * w == 2 * (i * (w / 2));
  }

  predicate WindowAgrees(f: File, windowSize: nat, base: nat, i: nat)
    requires f.Valid() && windowSize > 0
  {
    i < TotalWindows(f, windowSize) &&
    (WindowFacts(f, windowSize, i);
     var start, end := WindowStart(f, windowSize, i), WindowEnd(f, windowSize, i);
     RelayPart(f, base, start, end) == Plan(f, base, start, start, end, 1))
  }

  // ----- Together they tile the stream -----

  /** The frames of the whole transfer: what was written before the chunks, and each message. */
  function Tiles(f: File, meta: seq<byte>, n: nat): map<nat, seq<byte>>
    requires f.Valid() && n <= f.TotalChunks()
  {
    if n == 0 then map[0 := meta]
    else Tiles(f, meta, n - 1)[OffsetOf(f, |meta|, 0, n - 1) := Message(f, n - 1)]
  }

  function Layout(f: File, meta: seq<byte>, n: nat): Tiling
    requires f.Valid() && n <= f.TotalChunks()
  {
    Tiling(Tiles(f, meta, n), OffsetOf(f, |meta|, 0, n))
  }

  /** The messages tile the stream behind the metadata: no gap, no overlap. */
  lemma {:induction false} LayoutIsATiling(f: File, meta: seq<byte>, n: nat)
    requires f.Valid() && n <= f.TotalChunks() && meta != []
    ensures Layout(f, meta, n).Valid()
  {
    if n == 0 {
      assert Messages(f, 0, 0) == [];
      assert Layout(f, meta, 0).End(0) == |meta|;
      assert forall o :: o in Layout(f, meta, 0).tiles ==> o == 0;
    } else {
      hide Tiling.Valid, OffsetOf, Message;
      LayoutIsATiling(f, meta, n - 1);
      ExtendTiling(Layout(f, meta, n - 1), Message(f, n - 1));
      OffsetNext(f, |meta|, 0, n - 1);
    }
  }

  /** The stream of the whole transfer. */
  function WholeStream(f: File, meta: seq<byte>, n: nat): seq<byte>
    requires f.Valid() && n <= f.TotalChunks()
  {
    meta + Messages(f, 0, n)
  }

  lemma SlicesOfLonger(w: seq<byte>, d: seq<byte>, tiles: map<nat, seq<byte>>, longer: map<nat, seq<byte>>)
    requires (forall o :: o in tiles ==> IsSlice(w, o, tiles[o])) && longer == tiles[|w| := d]
    ensures forall o :: o in longer ==> IsSlice(w + d, o, longer[o])
  {
    forall o | o in longer
      ensures IsSlice(w + d, o, longer[o])
    {
      if o != |w| {
        assert (w + d)[o..o + |tiles[o]|] == w[o..o + |tiles[o]|];
      }
    }
  }

  /** The tiles are the bytes of that stream. */
  lemma {:induction false} LayoutIsTheStream(f: File, meta: seq<byte>, n: nat)
    requires f.Valid() && n <= f.TotalChunks() && meta != []
    ensures TilesOf(Layout(f, meta, n), WholeStream(f, meta, n))
  {
    if n == 0 {
      assert Messages(f, 0, 0) == [] && WholeStream(f, meta, 0) == meta;
      assert IsSlice(meta, 0, meta);
    } else {
      LayoutIsTheStream(f, meta, n - 1);
      OffsetNext(f, |meta|, 0, n - 1);
      SlicesOfLonger(WholeStream(f, meta, n - 1), Message(f, n - 1), Tiles(f, meta, n - 1), Tiles(f, meta, n));
      OneMoreMessage(f, meta, n - 1);
    }
  }

  lemma OneMoreMessage(f: File, meta: seq<byte>, n: nat)
    requires f.Valid() && n < f.TotalChunks()
    ensures WholeStream(f, meta, n + 1) == WholeStream(f, meta, n) + Message(f, n)
  {
    MessagesSplit(f, 0, n, n + 1);
    assert Messages(f, n, n + 1) == Message(f, n) + Messages(f, n + 1, n + 1);
    assert Messages(f, n + 1, n + 1) == [];
  }

  /** The tiles are the metadata and the messages, each at its offset. */
  ghost predicate Places(f: File, base: nat, n: nat, tiles: map<nat, seq<byte>>)
    requires f.Valid() && n <= f.TotalChunks()
  {
    && (forall j :: 0 <= j < n ==> OffsetOf(f, base, 0, j) in tiles && tiles[OffsetOf(f, base, 0, j)] == Message(f, j))
    && (forall o :: o in tiles ==> o == 0 || exists j :: 0 <= j < n && o == OffsetOf(f, base, 0, j))
  }

  lemma PlaceOne(f: File, base: nat, n: nat, tiles: map<nat, seq<byte>>)
    requires f.Valid() && n < f.TotalChunks() && Places(f, base, n, tiles) && OffsetOf(f, base, 0, n) !in tiles
    ensures Places(f, base, n + 1, tiles[OffsetOf(f, base, 0, n) := Message(f, n)])
  {
    hide OffsetOf, Message;
    var tiles' := tiles[OffsetOf(f, base, 0, n) := Message(f, n)];
    forall o | o in tiles' && o != 0
      ensures exists j :: 0 <= j < n + 1 && o == OffsetOf(f, base, 0, j)
    {
      if o in tiles {
        var j :| 0 <= j < n && o == OffsetOf(f, base, 0, j);
        assert o == OffsetOf(f, base, 0, j);
      } else {
        assert o == OffsetOf(f, base, 0, n);
      }
    }
  }

  lemma {:induction false} LayoutMembers(f: File, meta: seq<byte>, n: nat)
    requires f.Valid() && n <= f.TotalChunks() && meta != []
    ensures Places(f, |meta|, n, Tiles(f, meta, n))
  {
    if n > 0 {
      hide Tiling.Valid, OffsetOf, Message, Places;
      LayoutMembers(f, meta, n - 1);
      LayoutIsATiling(f, meta, n - 1);
      ExtendTiling(Layout(f, meta, n - 1), [0]);
      PlaceOne(f, |meta|, n - 1, Tiles(f, meta, n - 1));
    }
  }

  lemma OffsetFromWindow(f: File, base: nat, start: nat, j: nat)
    requires f.Valid() && start <= j <= f.TotalChunks()
    ensures OffsetOf(f, OffsetOf(f, base, 0, start), start, j) == OffsetOf(f, base, 0, j)
  {
    MessagesSplit(f, 0, start, j);
  }

  lemma {:induction false} PlanMembers(f: File, base: nat, start: nat, from: nat, end: nat, parity: nat)
    requires f.Valid() && start <= from <= end <= f.TotalChunks()
    ensures forall w :: w in Plan(f, base, start, from, end, parity) <==>
              exists j :: from <= j < end && j % 2 == parity && w == Write(OffsetOf(f, base, start, j), Message(f, j))
    decreases end - from
  {
    if from < end {
      PlanMembers(f, base, start, from + 1, end, parity);
    }
  }

  /** Server and relay together write exactly the chunks of each window, each of them once, at the
      places the layout of the whole transfer gives them. */
  lemma WindowWritesTile(f: File, meta: seq<byte>, windowSize: nat, i: nat)
    requires f.Valid() && windowSize > 0 && windowSize % 2 == 0 && i < TotalWindows(f, windowSize) && meta != []
    ensures var start, end := WindowStart(f, windowSize, i), WindowEnd(f, windowSize, i);
            && start < end <= f.TotalChunks()
            && var base := OffsetOf(f, |meta|, 0, start);
               var t := Layout(f, meta, f.TotalChunks());
               var server, relay := Plan(f, base, start, start, end, 0), RelayPart(f, base, start, end);
            && OffsetOf(f, base, start, end) == OffsetOf(f, |meta|, 0, end)
            && (forall w :: w in server || w in relay ==> w.offset in t.tiles && t.tiles[w.offset] == w.payload)
            && (forall j :: start <= j < end ==>
                  var w := Write(OffsetOf(f, |meta|, 0, j), Message(f, j));
                  (w in server <==> j % 2 == 0) && (w in relay <==> j % 2 == 1))
  {
    hide OffsetOf, Message, Plan, Tiles, WindowEnd;
    WindowFacts(f, windowSize, i);
    var start, end := WindowStart(f, windowSize, i), WindowEnd(f, windowSize, i);
    var base := OffsetOf(f, |meta|, 0, start);
    EvenMultiple(i, windowSize);
    RelayAgreesExactly(f, base, start, end);
    LayoutMembers(f, meta, f.TotalChunks());
    PlanMembers(f, base, start, start, end, 0);
    PlanMembers(f, base, start, start, end, 1);
    forall j | start <= j <= end
      ensures OffsetOf(f, base, start, j) == OffsetOf(f, |meta|, 0, j)
    {
      OffsetFromWindow(f, |meta|, start, j);
    }
    forall j, k | start <= j < end && start <= k < end && Message(f, j) == Message(f, k)
      ensures j == k
    {
      MessageIndex(f, j);
      MessageIndex(f, k);
    }
  }

  /** A message carries its index. */
  lemma MessageIndex(f: File, j: nat)
    requires f.Valid() && j < f.TotalChunks()
    ensures ReadU64(Message(f, j)) == Parsed(j, U32(|Chunk(f, j)|) + Chunk(f, j))
  {
    ChunkFacts(f, j);
    var rest := U32(|Chunk(f, j)|) + Chunk(f, j);
    assert Message(f, j) == U64(j) + rest;
    ReadU64Written(j, rest);
  }

  /** Whatever order the two senders' frames arrive in, and however often, the receiver delivers the
      metadata and all messages in order once every frame has arrived; as written, exactly when
      every frame that was thrown away comes again. */
  lemma TransferDelivered(f: File, meta: seq<byte>, arrivals: seq<nat>)
    requires f.Valid() && meta != []
    requires var t := Layout(f, meta, f.TotalChunks()); Arrivals(t, arrivals) && AllArrived(t, arrivals)
    ensures var t, w := Layout(f, meta, f.TotalChunks()), WholeStream(f, meta, f.TotalChunks());
            && Run(Repaired, t, arrivals).readBuf == w
            && (Run(AsWritten, t, arrivals).readBuf == w <==> DiscardsComeAgain(t, arrivals))
            && Run(AsWritten, t, arrivals).readBuf <= w
  {
    var t, w := Layout(f, meta, f.TotalChunks()), WholeStream(f, meta, f.TotalChunks());
    hide Layout, WholeStream, Run, Tiling.Valid, DiscardsComeAgain, Arrivals, AllArrived;
    LayoutIsATiling(f, meta, f.TotalChunks());
    LayoutIsTheStream(f, meta, f.TotalChunks());
    RepairedCompletesExactly(t, arrivals);
    AsWrittenCompletesExactly(t, arrivals);
    RunFaithful(Repaired, t, arrivals, w);
    RunFaithful(AsWritten, t, arrivals, w);
    ReadPrefix(Run(Repaired, t, arrivals), w);
    ReadPrefix(Run(AsWritten, t, arrivals), w);
  }

  lemma ReadPrefix(s: Recv, w: seq<byte>)
    requires Faithful(s, [], w)
    ensures s.readBuf <= w && (s.readBuf == w <==> s.expected == |w|)
  {
    assert [] + s.readBuf == s.readBuf;
  }
}
