/** The client of the split transfer: cutting the stream into messages, counting windows and putting
    the file together (examples/file_transfer/client/client.go). */
module TransferClient {
  import opened Bytes
  import opened Common
  import opened RecvStreams
  import opened Transfer

  /** The next message of the stream: index, data and what follows. None at the end of the stream or
      in the middle of a message. */
  function NextMessage(s: seq<byte>): Option<(nat, seq<byte>, seq<byte>)> {
    if |s| < MESSAGE_HEADER then None
    else
      var n := FromBytes(s[8..12]);
      if |s| - MESSAGE_HEADER < n then None
      else Some((FromBytes(s[..8]), s[12..12 + n], s[12 + n..]))
  }

  /** The reading loop: it stops when enough different chunks are there or the stream ends; a chunk
      that is there already is ignored. */
  function Collected(s: seq<byte>, total: nat, chunks: map<nat, seq<byte>>): map<nat, seq<byte>>
    decreases |s|
  {
    var m := NextMessage(s);
    if |chunks| >= total || m.None? then chunks
    else
      var (index, data, rest) := m.value;
      Collected(rest, total, if index in chunks then chunks else chunks[index := data])
  }

  /** `notified` counts the sends on the channel of capacity `total`. */
  method ReadChunks(s: seq<byte>, total: nat) returns (chunks: map<nat, seq<byte>>, notified: nat)
    ensures chunks == Collected(s, total, map[])
    ensures notified == |chunks| <= total
  {
    chunks, notified := map[], 0;
    var rest := s;
    while |chunks| < total
      invariant Collected(rest, total, chunks) == Collected(s, total, map[])
      invariant notified == |chunks| <= total
      decreases |rest|
    {
      if |rest| < MESSAGE_HEADER {
        break;
      }
      var chunkIndex, dataSize := FromBytes(rest[..8]), FromBytes(rest[8..12]);
      if |rest| - MESSAGE_HEADER < dataSize {
        break;
      }
      var data := rest[12..12 + dataSize];
      assert NextMessage(rest) == Some((chunkIndex, data, rest[12 + dataSize..]));
      if chunkIndex !in chunks {
        InsertedSize(chunks, chunkIndex, data);
        chunks := chunks[chunkIndex := data];
        notified := notified + 1;
      }
      rest := rest[12 + dataSize..];
    }
  }

  lemma InsertedSize(m: map<nat, seq<byte>>, k: nat, d: seq<byte>)
    requires k !in m
    ensures |m[k := d]| == |m| + 1
  {
    assert m[k := d].Keys == m.Keys + {k};
  }

  /** The chunks of the file below `n`. */
  function FileChunks(f: File, n: nat): map<nat, seq<byte>>
    requires f.Valid() && n <= f.TotalChunks()
  {
    map j: nat | j < n :: Chunk(f, j)
  }

  lemma {:induction false} FileChunksSize(f: File, n: nat)
    requires f.Valid() && n <= f.TotalChunks()
    ensures |FileChunks(f, n)| == n
  {
    if n > 0 {
      FileChunksSize(f, n - 1);
      assert FileChunks(f, n).Keys == FileChunks(f, n - 1).Keys + {n - 1};
    } else {
      assert FileChunks(f, 0) == map[];
    }
  }

  lemma MessageReadBack(f: File, j: nat, rest: seq<byte>)
    requires f.Valid() && j < f.TotalChunks()
    ensures NextMessage(Message(f, j) + rest) == Some((j, Chunk(f, j), rest))
  {
    var d := Chunk(f, j);
    var s := Message(f, j) + rest;
    ChunkFacts(f, j);
    Limits();
    FromToBytes(j, 8);
    FromToBytes(|d|, 4);
    assert s[..8] == U64(j);
    assert s[8..12] == U32(|d|);
    assert s[12..12 + |d|] == d;
    assert s[12 + |d|..] == rest;
  }

  lemma {:induction false} CollectedFrom(f: File, j: nat)
    requires f.Valid() && j <= f.TotalChunks()
    ensures Collected(Messages(f, j, f.TotalChunks()), f.TotalChunks(), FileChunks(f, j))
         == FileChunks(f, f.TotalChunks())
    decreases f.TotalChunks() - j
  {
    FileChunksSize(f, j);
    if j < f.TotalChunks() {
      var rest := Messages(f, j + 1, f.TotalChunks());
      MessageReadBack(f, j, rest);
      CollectOne(Message(f, j) + rest, f.TotalChunks(), FileChunks(f, j), j, Chunk(f, j), rest);
      FileChunksNext(f, j);
      CollectedFrom(f, j + 1);
    }
  }

  lemma FileChunksNext(f: File, j: nat)
    requires f.Valid() && j < f.TotalChunks()
    ensures FileChunks(f, j + 1) == FileChunks(f, j)[j := Chunk(f, j)] && j !in FileChunks(f, j)
  {
  }

  lemma CollectOne(s: seq<byte>, total: nat, chunks: map<nat, seq<byte>>, j: nat, d: seq<byte>, rest: seq<byte>)
    requires NextMessage(s) == Some((j, d, rest)) && |chunks| < total && j !in chunks
    ensures Collected(s, total, chunks) == Collected(rest, total, chunks[j := d])
  {
  }

  /** The final loop over 0..total: the file, or nothing when a chunk is missing. */
  method Assemble(chunks: map<nat, seq<byte>>, total: nat) returns (file: Option<seq<byte>>)
    ensures file == Assembled(chunks, total)
  {
    var dest: seq<byte> := [];
    for i := 0 to total
      invariant Assembled(chunks, i) == Some(dest)
    {
      if i !in chunks {
        MissingChunk(chunks, i, total);
        return None;
      }
      dest := dest + chunks[i];
    }
    file := Some(dest);
  }

  function Assembled(chunks: map<nat, seq<byte>>, total: nat): Option<seq<byte>> {
    if total == 0 then Some([])
    else
      var before := Assembled(chunks, total - 1);
      if before.None? || total - 1 !in chunks then None else Some(before.value + chunks[total - 1])
  }

  lemma {:induction false} MissingChunk(chunks: map<nat, seq<byte>>, i: nat, total: nat)
    requires i < total && i !in chunks
    ensures Assembled(chunks, total) == None
  {
    if i < total - 1 {
      MissingChunk(chunks, i, total - 1);
    }
  }

  /** Where the first `n` chunks end in the file. */
  function EndOf(f: File, n: nat): nat
    requires f.Valid() && n <= f.TotalChunks()
  {
    if n == f.TotalChunks() then |f.bytes| else n * f.chunkSize
  }

  lemma EndOfNext(f: File, n: nat)
    requires f.Valid() && n < f.TotalChunks()
    ensures EndOf(f, n) <= EndOf(f, n + 1) <= |f.bytes|
    ensures Chunk(f, n) == f.bytes[EndOf(f, n)..EndOf(f, n + 1)]
  {
    ChunkFacts(f, n);
  }

  lemma EndOfNone(f: File)
    requires f.Valid()
    ensures EndOf(f, 0) == 0
  {
    DivisionBounds(|f.bytes| + f.chunkSize - 1, f.chunkSize);
  }

  lemma {:induction false} AssembledPrefix(f: File, n: nat)
    requires f.Valid() && n <= f.TotalChunks()
    ensures EndOf(f, n) <= |f.bytes|
    ensures Assembled(FileChunks(f, f.TotalChunks()), n) == Some(f.bytes[..EndOf(f, n)])
  {
    if n == 0 {
      EndOfNone(f);
    } else {
      AssembledPrefix(f, n - 1);
      EndOfNext(f, n - 1);
      JoinSlices(f.bytes, EndOf(f, n - 1), EndOf(f, n));
      assert FileChunks(f, f.TotalChunks())[n - 1] == Chunk(f, n - 1);
    }
  }

  lemma JoinSlices(s: seq<byte>, i: nat, j: nat)
    requires i <= j <= |s|
    ensures s[..i] + s[i..j] == s[..j]
  {
  }

  /** Reading the messages of a transfer gives one entry for every chunk and nothing else, and putting
      them in order gives the file back. */
  lemma ClientRestoresFile(f: File)
    requires f.Valid()
    ensures var total := f.TotalChunks();
            var chunks := Collected(Messages(f, 0, total), total, map[]);
            && chunks == FileChunks(f, total) && |chunks| == total
            && Assembled(chunks, total) == Some(f.bytes)
  {
    assert FileChunks(f, 0) == map[];
    CollectedFrom(f, 0);
    FileChunksSize(f, f.TotalChunks());
    AssembledPrefix(f, f.TotalChunks());
    assert f.bytes[..|f.bytes|] == f.bytes;
  }

  /** The file the client puts together from what it can read of the stream, if it can. */
  function Downloaded(meta: seq<byte>, read: seq<byte>, total: nat): Option<seq<byte>> {
    if |read| < |meta| then None else Assembled(Collected(read[|meta|..], total, map[]), total)
  }

  lemma {:induction false} ShortReadLacksAChunk(f: File, j: nat, s: seq<byte>)
    requires f.Valid() && j <= f.TotalChunks() && s < Messages(f, j, f.TotalChunks())
    ensures Assembled(Collected(s, f.TotalChunks(), FileChunks(f, j)), f.TotalChunks()) == None
    decreases f.TotalChunks() - j
  {
    hide Message, Chunk, Assembled;
    var total, m, rest := f.TotalChunks(), Message(f, j), Messages(f, j + 1, f.TotalChunks());
    assert Messages(f, j, total) == m + rest;
    if |m| <= |s| {
      var s' := s[|m|..];
      CutPrefix(m, rest, s);
      MessageReadBack(f, j, s');
      FileChunksSize(f, j);
      CollectOne(s, total, FileChunks(f, j), j, Chunk(f, j), s');
      FileChunksNext(f, j);
      ShortReadLacksAChunk(f, j + 1, s');
    } else {
      CutMessage(f, j, s, rest);
      assert Collected(s, total, FileChunks(f, j)) == FileChunks(f, j);
      MissingChunk(FileChunks(f, j), j, total);
    }
  }

  lemma CutPrefix(m: seq<byte>, rest: seq<byte>, s: seq<byte>)
    requires s < m + rest && |m| <= |s|
    ensures s == m + s[|m|..] && s[|m|..] < rest
  {
    assert forall i :: 0 <= i < |m| ==> s[i] == (m + rest)[i] == m[i];
    assert forall i :: |m| <= i < |s| ==> s[i] == (m + rest)[i] == rest[i - |m|];
  }

  lemma CutMessage(f: File, j: nat, s: seq<byte>, rest: seq<byte>)
    requires f.Valid() && j < f.TotalChunks() && s < Message(f, j) + rest && |s| < |Message(f, j)|
    ensures NextMessage(s).None?
  {
    var d := Chunk(f, j);
    if |s| >= MESSAGE_HEADER {
      ChunkFacts(f, j);
      Limits();
      FromToBytes(|d|, 4);
      assert (Message(f, j) + rest)[8..12] == U32(|d|);
      assert s[8..12] == (Message(f, j) + rest)[8..12];
    }
  }

  /** From the two senders' frames to the file. All of them have arrived, in any order and with any
      repetitions: with the repaired receive loop the client puts together the file; with the loop as
      written exactly when every frame that was thrown away comes again. */
  lemma DownloadRestoresFile(v: Variant, f: File, meta: seq<byte>, arrivals: seq<nat>)
    requires f.Valid() && meta != []
    requires var t := Layout(f, meta, f.TotalChunks()); Arrivals(t, arrivals) && AllArrived(t, arrivals)
    ensures var t := Layout(f, meta, f.TotalChunks());
            Downloaded(meta, Run(v, t, arrivals).readBuf, f.TotalChunks()) == Some(f.bytes)
            <==> v.Repaired? || DiscardsComeAgain(t, arrivals)
  {
    var total, w := f.TotalChunks(), WholeStream(f, meta, f.TotalChunks());
    var read := Run(v, Layout(f, meta, total), arrivals).readBuf;
    TransferDelivered(f, meta, arrivals);
    hide Layout, Run, DiscardsComeAgain, Collected, Assembled, AllArrived, Arrivals;
    assert w[..|meta|] == meta && w[|meta|..] == Messages(f, 0, total);
    if read == w {
      ClientRestoresFile(f);
    } else if |meta| <= |read| {
      CutPrefix(meta, Messages(f, 0, total), read);
      assert FileChunks(f, 0) == map[];
      ShortReadLacksAChunk(f, 0, read[|meta|..]);
    }
  }

  /** Whatever the stream holds, the first copy of a chunk stays, and no more than the total are kept. */
  lemma {:induction false} FirstCopyStays(s: seq<byte>, total: nat, chunks: map<nat, seq<byte>>)
    requires |chunks| <= total
    ensures var all := Collected(s, total, chunks);
            |all| <= total && forall k :: k in chunks ==> k in all && all[k] == chunks[k]
    decreases |s|
  {
    var m := NextMessage(s);
    if |chunks| < total && m.Some? {
      var (index, data, rest) := m.value;
      if index !in chunks {
        InsertedSize(chunks, index, data);
      }
      FirstCopyStays(rest, total, if index in chunks then chunks else chunks[index := data]);
    }
  }

  // ----- Counting windows -----

  /** The notifications the client waits for in window `w`. */
  function Expected(f: File, windowSize: nat, w: nat): nat
    requires f.Valid() && windowSize > 0
  {
    if w + 1 == TotalWindows(f, windowSize) && LastWindow(f, windowSize) > 0 then LastWindow(f, windowSize)
    else windowSize
  }

  method CountWindows(f: File, windowSize: nat) returns (consumed: nat)
    requires f.Valid() && windowSize > 0
    ensures consumed == f.TotalChunks()
  {
    consumed := 0;
    for w := 0 to TotalWindows(f, windowSize)
      invariant consumed == if w < TotalWindows(f, windowSize) then WindowStart(f, windowSize, w) else f.TotalChunks()
    {
      WindowFacts(f, windowSize, w);
      var chunksToExpect := Expected(f, windowSize, w);
      var received := 0;
      while received < chunksToExpect
        invariant received <= chunksToExpect && consumed == WindowStart(f, windowSize, w) + received
      {
        consumed := consumed + 1;
        received := received + 1;
      }
    }
    if TotalWindows(f, windowSize) == 0 {
      DivisionBounds(f.TotalChunks() + windowSize - 1, windowSize);
    }
  }
}
